/** Strings as sequences of bytes: the library operations the models share and the laws they need. */
module Text {
  predicate HasPrefix(s: string, prefix: string) {
    prefix <= s
  }

  predicate HasSuffix(s: string, suffix: string) {
    |suffix| <= |s| && s[|s| - |suffix|..] == suffix
  }

  function TrimPrefix(s: string, prefix: string): string {
    if HasPrefix(s, prefix) then s[|prefix|..] else s
  }

  function TrimSuffix(s: string, suffix: string): string {
    if HasSuffix(s, suffix) then s[..|s| - |suffix|] else s
  }

  lemma Associates(a: string, b: string, c: string)
    ensures a + b + c == a + (b + c)
  {
  }

  // ----- Substrings and replacement -----

  predicate Occurs(s: string, t: string) {
    exists i :: 0 <= i <= |t| && s <= t[i..]
  }

  /** Leftmost, non-overlapping replacement of every occurrence. */
  function ReplaceAll(t: string, pattern: string, substitute: string): string
    requires pattern != ""
    decreases |t|
  {
    if |t| < |pattern| then t
    else if pattern <= t then substitute + ReplaceAll(t[|pattern|..], pattern, substitute)
    else [t[0]] + ReplaceAll(t[1..], pattern, substitute)
  }

  predicate Comparable(a: string, b: string) {
    a <= b || b <= a
  }

  /** No occurrence of `s` can overlap a copy of `n`, whatever surrounds it. */
  predicate NoClash(s: string, n: string) {
    && s != ""
    && (forall i | 0 <= i < |n| :: !Comparable(n[i..], s))
    && (forall j | 0 <= j < |s| :: !Comparable(s[j..], n))
  }

  lemma PrefixComparable(n: string, rest: string, s: string)
    requires s <= n + rest
    ensures Comparable(s, n)
  {
  }

  lemma OverlapComparable(n: string, rest: string, s: string, i: nat)
    requires i < |n| && s <= (n + rest)[i..]
    ensures Comparable(n[i..], s)
  {
  }

  lemma {:induction false} PrefixUntouched(t: string, pattern: string, n: string, s: string, j: nat)
    requires pattern != "" && NoClash(s, n) && j <= |s| && s[j..] <= ReplaceAll(t, pattern, n)
    ensures s[j..] <= t
    decreases |t|
  {
    if j < |s| && |t| >= |pattern| {
      if pattern <= t {
        PrefixComparable(n, ReplaceAll(t[|pattern|..], pattern, n), s[j..]);
      } else {
        assert s[j..][1..] == s[j + 1..];
        PrefixUntouched(t[1..], pattern, n, s, j + 1);
        assert t == [t[0]] + t[1..];
      }
    }
  }

  /** Replacement creates no occurrence of a string that cannot clash with the replacement. */
  lemma {:induction false} NoNewOccurrence(t: string, pattern: string, n: string, s: string)
    requires pattern != "" && NoClash(s, n) && Occurs(s, ReplaceAll(t, pattern, n))
    ensures Occurs(s, t)
    decreases |t|
  {
    var r := ReplaceAll(t, pattern, n);
    var i :| 0 <= i <= |r| && s <= r[i..];
    if |t| < |pattern| {
    } else if pattern <= t {
      var rest := t[|pattern|..];
      if i < |n| {
        OverlapComparable(n, ReplaceAll(rest, pattern, n), s, i);
      }
      assert r[i..] == ReplaceAll(rest, pattern, n)[i - |n|..];
      NoNewOccurrence(rest, pattern, n, s);
      OccursLater(s, t, |pattern|);
    } else if i == 0 {
      assert s[0..] == s && r[0..] == r;
      PrefixUntouched(t, pattern, n, s, 0);
      assert t[0..] == t;
    } else {
      assert r[i..] == ReplaceAll(t[1..], pattern, n)[i - 1..];
      NoNewOccurrence(t[1..], pattern, n, s);
      OccursLater(s, t, 1);
    }
  }

  lemma OccursLater(s: string, t: string, k: nat)
    requires k <= |t| && Occurs(s, t[k..])
    ensures Occurs(s, t)
  {
  }

  /** The pattern itself is gone, if it cannot clash with the replacement. */
  lemma {:induction false} ReplacedIsGone(t: string, pattern: string, n: string)
    requires NoClash(pattern, n)
    ensures !Occurs(pattern, ReplaceAll(t, pattern, n))
    decreases |t|
  {
    var r := ReplaceAll(t, pattern, n);
    if i :| 0 <= i <= |r| && pattern <= r[i..] {
      if |t| < |pattern| {
        assert false;
      } else if pattern <= t {
        var rest := t[|pattern|..];
        if i < |n| {
          OverlapComparable(n, ReplaceAll(rest, pattern, n), pattern, i);
        } else {
          assert r[i..] == ReplaceAll(rest, pattern, n)[i - |n|..];
          ReplacedIsGone(rest, pattern, n);
        }
      } else if i == 0 {
        assert pattern[0..] == pattern && r[0..] == r;
        PrefixUntouched(t, pattern, n, pattern, 0);
      } else {
        assert r[i..] == ReplaceAll(t[1..], pattern, n)[i - 1..];
        ReplacedIsGone(t[1..], pattern, n);
      }
    }
  }

  lemma {:induction false} NothingToReplace(t: string, pattern: string, n: string)
    requires pattern != "" && !Occurs(pattern, t)
    ensures ReplaceAll(t, pattern, n) == t
    decreases |t|
  {
    if |t| >= |pattern| {
      assert t[0..] == t;
      if Occurs(pattern, t[1..]) {
        OccursLater(pattern, t, 1);
      }
      NothingToReplace(t[1..], pattern, n);
    }
  }

  /** Replacing twice is replacing once. */
  lemma ReplaceAllIdempotent(t: string, pattern: string, n: string)
    requires NoClash(pattern, n)
    ensures ReplaceAll(ReplaceAll(t, pattern, n), pattern, n) == ReplaceAll(t, pattern, n)
  {
    ReplacedIsGone(t, pattern, n);
    NothingToReplace(ReplaceAll(t, pattern, n), pattern, n);
  }

  /** A match with nothing starting before it is the one replaced first. */
  lemma {:induction false} FirstMatchReplaced(x: string, pattern: string, y: string, n: string)
    requires pattern != "" && forall k | 0 <= k < |x| :: !(pattern <= (x + pattern + y)[k..])
    ensures ReplaceAll(x + pattern + y, pattern, n) == x + n + ReplaceAll(y, pattern, n)
    decreases |x|
  {
    hide ReplaceAll;
    var t := x + pattern + y;
    if x == "" {
      assert t == pattern + y && t[|pattern|..] == y;
      MatchReplaced(t, pattern, n);
    } else {
      assert t[1..] == x[1..] + pattern + y;
      forall k | 0 <= k < |x[1..]| ensures !(pattern <= (x[1..] + pattern + y)[k..]) {
        assert t[1..][k..] == t[k + 1..];
      }
      FirstMatchReplaced(x[1..], pattern, y, n);
      assert !(pattern <= t[0..]) && t[0..] == t;
      ReplaceAllSteps(t, pattern, n);
      assert x == [t[0]] + x[1..];
    }
  }

  lemma TailClashLeaks(s: string, n: string, i: nat) returns (t: string)
    requires s != "" && i < |n| && Comparable(n[i..], s)
    ensures Occurs(s, ReplaceAll(t, s, n))
  {
    var u := if s <= n[i..] then "" else s[|n| - i..];
    t := "" + s + u;
    FirstMatchReplaced("", s, u, n);
    var r := ReplaceAll(t, s, n);
    assert r == n + u;
    assert r[i..] == n[i..] + u;
    assert s <= r[i..];
  }

  lemma HeadClashLeaks(s: string, n: string, j: nat) returns (t: string)
    requires n != "" && j < |s| && Comparable(s[j..], n) && s[0] != n[0]
    ensures Occurs(s, ReplaceAll(t, s, n))
  {
    var v, w := s[..j], if n <= s[j..] then s[j..][|n|..] else "";
    t := v + s + w;
    assert s[j] == n[0];
    forall k | 0 <= k < j ensures !(s <= t[k..]) {
      assert t[k] == s[k] && t[j + k] == s[k];
      assert t[k..][0] == t[k] && t[k..][j] == t[k + j];
    }
    FirstMatchReplaced(v, s, w, n);
    var r := ReplaceAll(t, s, n);
    assert r == v + n + w;
    assert s == v + s[j..];
    assert s <= r[0..];
  }

  /**
   The condition above is exact for a replacement that ends with its own first character: otherwise
   some text still holds the pattern after the replacement.
   */
  lemma ClashLeaks(s: string, n: string) returns (t: string)
    requires s != "" && n != "" && n[0] == n[|n| - 1] && !NoClash(s, n)
    ensures Occurs(s, ReplaceAll(t, s, n))
  {
    if s[0] == n[0] {
      assert n[|n| - 1..] == [s[0]] && [s[0]] <= s;
      t := TailClashLeaks(s, n, |n| - 1);
    } else if i :| 0 <= i < |n| && Comparable(n[i..], s) {
      t := TailClashLeaks(s, n, i);
    } else {
      var j :| 0 <= j < |s| && Comparable(s[j..], n);
      t := HeadClashLeaks(s, n, j);
    }
  }

  /** Where the pattern does not start, one character is kept; also in a text too short for it. */
  lemma ReplaceAllSteps(t: string, pattern: string, n: string)
    requires t != "" && pattern != "" && !(pattern <= t)
    ensures ReplaceAll(t, pattern, n) == [t[0]] + ReplaceAll(t[1..], pattern, n)
  {
  }

  lemma SeparatorInPrefix(a: string, sep: char, b: string, pattern: string)
    requires |a| < |pattern| && pattern <= a + [sep] + b
    ensures sep in pattern
  {
    assert pattern[|a|] == (a + [sep] + b)[|a|];
  }

  /** Replacement within a line does not see the rest of the file. */
  lemma {:induction false} ReplaceAllByParts(a: string, sep: char, b: string, pattern: string, n: string)
    requires pattern != "" && sep !in pattern
    ensures ReplaceAll(a + [sep] + b, pattern, n) == ReplaceAll(a, pattern, n) + [sep] + ReplaceAll(b, pattern, n)
    decreases |a|
  {
    hide ReplaceAll;
    var t := a + [sep] + b;
    assert t[|a|] == sep;
    if a == "" {
      assert t[1..] == b;
      ReplaceAllSteps(t, pattern, n);
      EmptyKept(pattern, n);
    } else if pattern <= t {
      if |a| < |pattern| {
        SeparatorInPrefix(a, sep, b, pattern);
        assert false;
      }
      assert pattern <= a;
      assert t[|pattern|..] == a[|pattern|..] + [sep] + b;
      ReplaceAllByParts(a[|pattern|..], sep, b, pattern, n);
      MatchReplaced(t, pattern, n);
      MatchReplaced(a, pattern, n);
    } else {
      assert t[1..] == a[1..] + [sep] + b;
      ReplaceAllSteps(t, pattern, n);
      ReplaceAllSteps(a, pattern, n);
      ReplaceAllByParts(a[1..], sep, b, pattern, n);
    }
  }

  lemma MatchReplaced(t: string, pattern: string, n: string)
    requires pattern != "" && pattern <= t
    ensures ReplaceAll(t, pattern, n) == n + ReplaceAll(t[|pattern|..], pattern, n)
  {
  }

  lemma EmptyKept(pattern: string, n: string)
    requires pattern != ""
    ensures ReplaceAll("", pattern, n) == ""
  {
  }

  // ----- Splitting at a separator -----

  function Split(s: string, sep: char): (parts: seq<string>)
    ensures |parts| >= 1
    ensures forall part | part in parts :: sep !in part
  {
    if s == "" then [""]
    else
      var rest := Split(s[1..], sep);
      if s[0] == sep then [""] + rest else [[s[0]] + rest[0]] + rest[1..]
  }

  function Join(parts: seq<string>, sep: char): string
    requires |parts| >= 1
  {
    if |parts| == 1 then parts[0] else parts[0] + [sep] + Join(parts[1..], sep)
  }

  lemma {:induction false} JoinSplit(s: string, sep: char)
    ensures Join(Split(s, sep), sep) == s
  {
    if s != "" {
      var rest := Split(s[1..], sep);
      JoinSplit(s[1..], sep);
      if s[0] == sep {
        assert ([""] + rest)[1..] == rest;
      } else {
        var parts := [[s[0]] + rest[0]] + rest[1..];
        assert parts[1..] == rest[1..];
      }
    }
  }

  lemma {:induction false} SplitJoin(parts: seq<string>, sep: char)
    requires |parts| >= 1 && forall part | part in parts :: sep !in part
    ensures Split(Join(parts, sep), sep) == parts
    decreases |parts|, |parts[0]|
  {
    var s := Join(parts, sep);
    if parts[0] == "" {
      if |parts| > 1 {
        SplitJoin(parts[1..], sep);
        assert s == [sep] + Join(parts[1..], sep);
        assert s[1..] == Join(parts[1..], sep);
        assert parts == [""] + parts[1..];
      } else {
        assert parts == [""];
        assert Split("", sep) == [""];
      }
    } else {
      var shorter := [parts[0][1..]] + parts[1..];
      assert shorter[1..] == parts[1..];
      assert parts[0] in parts;
      forall part | part in shorter ensures sep !in part {
        assert part == shorter[0] || part in parts[1..];
      }
      SplitJoin(shorter, sep);
      assert s == [parts[0][0]] + Join(shorter, sep);
      assert s[1..] == Join(shorter, sep);
      assert [parts[0][0]] + shorter[0] == parts[0];
      assert parts == [[parts[0][0]] + shorter[0]] + shorter[1..];
    }
  }
}
