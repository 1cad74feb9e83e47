/** NormalizeLabelValue in internal/utils/sanitize.go, on bytes. */
module LabelValue {
  import opened Text

  predicate Alphanumeric(c: char) {
    'A' <= c <= 'Z' || 'a' <= c <= 'z' || '0' <= c <= '9'
  }

  predicate Allowed(c: char) {
    Alphanumeric(c) || c == '_' || c == '.' || c == '-'
  }

  const MAX_LENGTH := 63

  /** The label values that Kubernetes accepts. */
  predicate Valid(s: string) {
    s == "" ||
    (&& |s| <= MAX_LENGTH
     && Alphanumeric(s[0]) && Alphanumeric(s[|s| - 1])
     && forall c | c in s :: Allowed(c))
  }

  // ----- The steps -----

  function Truncate(s: string): string {
    if |s| > MAX_LENGTH then s[..MAX_LENGTH] else s
  }

  function StripLeading(s: string): string {
    if s != "" && !Alphanumeric(s[0]) then StripLeading(s[1..]) else s
  }

  function StripTrailing(s: string): string {
    if s != "" && !Alphanumeric(s[|s| - 1]) then StripTrailing(s[..|s| - 1]) else s
  }

  /** Each maximal run of other characters becomes one underscore; `inRun`: the character before was such a one. */
  function CollapseRuns(s: string, inRun: bool): string {
    if s == "" then ""
    else if Allowed(s[0]) then [s[0]] + CollapseRuns(s[1..], false)
    else (if inRun then "" else "_") + CollapseRuns(s[1..], true)
  }

  function NormalizeLabelValue(value: string): string {
    CollapseRuns(StripTrailing(StripLeading(Truncate(ReplaceAll(value, "/", "_")))), false)
  }

  // ----- What each step keeps -----

  /** The alphanumeric characters, in order. */
  function Alphanumerics(s: string): string {
    if s == "" then ""
    else (if Alphanumeric(s[0]) then [s[0]] else "") + Alphanumerics(s[1..])
  }

  lemma {:induction false} AlphanumericsConcat(a: string, b: string)
    ensures Alphanumerics(a + b) == Alphanumerics(a) + Alphanumerics(b)
  {
    if a == "" {
      assert a + b == b;
    } else {
      AlphanumericsConcat(a[1..], b);
      var head := if Alphanumeric(a[0]) then [a[0]] else "";
      assert (a + b)[0] == a[0] && (a + b)[1..] == a[1..] + b;
      assert Alphanumerics(a + b) == head + Alphanumerics(a[1..] + b);
      assert Alphanumerics(a) == head + Alphanumerics(a[1..]);
      hide Alphanumerics;
      Associates(head, Alphanumerics(a[1..]), Alphanumerics(b));
    }
  }

  function Underscored(c: char): char {
    if c == '/' then '_' else c
  }

  lemma {:induction false} SlashesReplaced(s: string)
    ensures var r := ReplaceAll(s, "/", "_");
      |r| == |s| && forall i | 0 <= i < |s| :: r[i] == Underscored(s[i])
  {
    if s != "" {
      SlashesReplaced(s[1..]);
      assert s[|"/"|..] == s[1..];
    }
  }

  lemma {:induction false} SameAlphanumerics(s: string, r: string)
    requires |r| == |s| && forall i | 0 <= i < |s| :: r[i] == Underscored(s[i])
    ensures Alphanumerics(r) == Alphanumerics(s)
  {
    if s != "" {
      SameAlphanumerics(s[1..], r[1..]);
    }
  }

  lemma {:induction false} LeadingStripped(s: string)
    ensures var r := StripLeading(s);
      && |r| <= |s| && (r != "" ==> Alphanumeric(r[0]))
      && Alphanumerics(r) == Alphanumerics(s)
  {
    if s != "" && !Alphanumeric(s[0]) {
      LeadingStripped(s[1..]);
    }
  }

  lemma {:induction false} TrailingStripped(s: string)
    ensures var r := StripTrailing(s);
      && r <= s && (r != "" ==> Alphanumeric(r[|r| - 1]))
      && Alphanumerics(r) == Alphanumerics(s)
      && (s != "" && Alphanumeric(s[0]) ==> r != "" && r[0] == s[0])
  {
    if s != "" && !Alphanumeric(s[|s| - 1]) {
      TrailingStripped(s[..|s| - 1]);
      AlphanumericsConcat(s[..|s| - 1], [s[|s| - 1]]);
      assert s == s[..|s| - 1] + [s[|s| - 1]];
    }
  }

  lemma {:induction false} RunsCollapsed(s: string, inRun: bool)
    ensures var r := CollapseRuns(s, inRun);
      && |r| <= |s| && (forall c | c in r :: Allowed(c))
      && Alphanumerics(r) == Alphanumerics(s)
      && (s != "" && Alphanumeric(s[0]) ==> r != "" && r[0] == s[0])
      && (s != "" && Alphanumeric(s[|s| - 1]) ==> r != "" && r[|r| - 1] == s[|s| - 1])
  {
    if s != "" {
      RunsCollapsed(s[1..], !Allowed(s[0]));
      var rest := CollapseRuns(s[1..], !Allowed(s[0]));
      if !Allowed(s[0]) && !inRun {
        AlphanumericsConcat("_", rest);
      } else if Allowed(s[0]) {
        assert ([s[0]] + rest)[1..] == rest;
      } else {
        assert "" + rest == rest;
      }
    }
  }

  lemma {:induction false} CollapseConcat(a: string, b: string, inRun: bool)
    ensures CollapseRuns(a + b, inRun)
      == CollapseRuns(a, inRun) + CollapseRuns(b, if a == "" then inRun else !Allowed(a[|a| - 1]))
  {
    if a == "" {
      assert a + b == b;
    } else {
      var rest, bad := a[1..], !Allowed(a[0]);
      CollapseConcat(rest, b, bad);
      assert (a + b)[0] == a[0] && (a + b)[1..] == rest + b;
      var head := if !bad then [a[0]] else if inRun then "" else "_";
      assert CollapseRuns(a + b, inRun) == head + CollapseRuns(rest + b, bad);
      assert CollapseRuns(a, inRun) == head + CollapseRuns(rest, bad);
      hide CollapseRuns;
      var ended := !Allowed(a[|a| - 1]);
      assert ended == if rest == "" then bad else !Allowed(rest[|rest| - 1]);
      Associates(head, CollapseRuns(rest, bad), CollapseRuns(b, ended));
    }
  }

  lemma {:induction false} OnlyRun(run: string, inRun: bool)
    requires forall c | c in run :: !Allowed(c)
    ensures CollapseRuns(run, inRun) == if run == "" || inRun then "" else "_"
  {
    if run != "" {
      OnlyRun(run[1..], true);
    }
  }

  /** A maximal run of characters that are not allowed becomes one underscore, and the rest is as without it. */
  lemma RunBecomesUnderscore(a: string, run: string, b: string)
    requires run != "" && forall c | c in run :: !Allowed(c)
    requires a == "" || Allowed(a[|a| - 1])
    requires b == "" || Allowed(b[0])
    ensures CollapseRuns(a + run + b, false) == CollapseRuns(a, false) + "_" + CollapseRuns(b, false)
  {
    CollapseConcat(a + run, b, false);
    CollapseConcat(a, run, false);
    OnlyRun(run, false);
    assert run[|run| - 1] in run && (a + run)[|a + run| - 1] == run[|run| - 1];
  }

  lemma {:induction false} AllowedKept(s: string)
    requires forall c | c in s :: Allowed(c)
    ensures CollapseRuns(s, false) == s
  {
    if s != "" {
      AllowedKept(s[1..]);
    }
  }

  lemma {:induction false} NoAlphanumerics(s: string)
    ensures Alphanumerics(s) == "" <==> forall c | c in s :: !Alphanumeric(c)
  {
    if s != "" {
      NoAlphanumerics(s[1..]);
      assert s == [s[0]] + s[1..];
    }
  }

  // ----- The result -----

  /**
   The result is a valid label value and holds exactly the alphanumeric characters among the first 63
   bytes, in their order.
   */
  lemma NormalizedIsValid(value: string)
    ensures Valid(NormalizeLabelValue(value))
    ensures Alphanumerics(NormalizeLabelValue(value)) == Alphanumerics(Truncate(value))
  {
    var replaced := ReplaceAll(value, "/", "_");
    SlashesReplaced(value);
    var short := Truncate(replaced);
    SameAlphanumerics(Truncate(value), short);
    LeadingStripped(short);
    var front := StripLeading(short);
    TrailingStripped(front);
    RunsCollapsed(StripTrailing(front), false);
  }

  lemma {:induction false} LeadingPart(s: string) returns (lead: string)
    ensures s == lead + StripLeading(s) && forall c | c in lead :: !Alphanumeric(c)
  {
    if s != "" && !Alphanumeric(s[0]) {
      var rest := LeadingPart(s[1..]);
      lead := [s[0]] + rest;
    } else {
      lead := "";
    }
  }

  lemma {:induction false} TrailingPart(s: string) returns (trail: string)
    ensures s == StripTrailing(s) + trail && forall c | c in trail :: !Alphanumeric(c)
  {
    if s != "" && !Alphanumeric(s[|s| - 1]) {
      var rest := TrailingPart(s[..|s| - 1]);
      trail := rest + [s[|s| - 1]];
    } else {
      trail := "";
    }
  }

  /**
   Where the result comes from: the first 63 bytes without what precedes the first and follows the last
   alphanumeric character, slashes made underscores and runs collapsed.
   */
  lemma NormalizedFrom(value: string) returns (lead: string, middle: string, trail: string)
    ensures |lead + middle + trail| == if |value| < 63 then |value| else 63
    ensures forall i | 0 <= i < |lead + middle + trail| ::
      (lead + middle + trail)[i] == if value[i] == '/' then '_' else value[i]
    ensures forall c | c in lead || c in trail :: !Alphanumeric(c)
    ensures middle != "" ==> Alphanumeric(middle[0]) && Alphanumeric(middle[|middle| - 1])
    ensures NormalizeLabelValue(value) == CollapseRuns(middle, false)
  {
    var short := Truncate(ReplaceAll(value, "/", "_"));
    ShortIs(value);
    hide CollapseRuns, StripLeading, StripTrailing, Truncate, ReplaceAll, Alphanumerics;
    lead := LeadingPart(short);
    var front := StripLeading(short);
    LeadingStripped(short);
    trail := TrailingPart(front);
    middle := StripTrailing(front);
    TrailingStripped(front);
    Associates(lead, middle, trail);
    assert lead + middle + trail == short;
  }

  lemma ShortIs(value: string)
    ensures var short := Truncate(ReplaceAll(value, "/", "_"));
      && |short| == (if |value| < 63 then |value| else 63)
      && forall i | 0 <= i < |short| :: short[i] == if value[i] == '/' then '_' else value[i]
  {
    SlashesReplaced(value);
  }

  /** The valid values are exactly those left as they are. */
  lemma UnchangedIffValid(value: string)
    ensures NormalizeLabelValue(value) == value <==> Valid(value)
  {
    NormalizedIsValid(value);
    if Valid(value) {
      SlashesReplaced(value);
      assert ReplaceAll(value, "/", "_") == value by {
        forall i | 0 <= i < |value| ensures Underscored(value[i]) == value[i] {
          assert value[i] in value;
        }
      }
      AllowedKept(value);
    }
  }

  lemma NormalizeIdempotent(value: string)
    ensures NormalizeLabelValue(NormalizeLabelValue(value)) == NormalizeLabelValue(value)
  {
    NormalizedIsValid(value);
    UnchangedIffValid(NormalizeLabelValue(value));
  }

  /** Only a value without alphanumeric characters in its first 63 bytes is lost. */
  lemma EmptyIffNothingToKeep(value: string)
    ensures NormalizeLabelValue(value) == "" <==> forall c | c in Truncate(value) :: !Alphanumeric(c)
  {
    var r := NormalizeLabelValue(value);
    NormalizedIsValid(value);
    NoAlphanumerics(Truncate(value));
    NoAlphanumerics(r);
    assert r != "" ==> r[0] in r;
  }
}
