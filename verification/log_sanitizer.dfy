/** internal/tekton/log_sanitizer.sh: literal redaction through sed, and the fail-safe around it. */
module LogSanitizer {
  import opened Wrappers
  import opened Text

  const MARK := "**REDACTED**"
  const FAIL_MESSAGE := "Sanitization step failed; the entire logs of this execution were removed for caution"

  // ----- The escape step (line 45) -----

  /** The bracket expression of the escaping command; a backslash is literal inside brackets. */
  const ESCAPED := {'[', '\\', '.', '*', '^', '$', '|'}

  function Escape(secret: string): string {
    if secret == "" then ""
    else (if secret[0] in ESCAPED then ['\\', secret[0]] else [secret[0]]) + Escape(secret[1..])
  }

  // ----- How sed reads the command (line 46) -----

  /**
   The text up to the next delimiter and what follows it. A backslash makes a following delimiter an
   ordinary character and otherwise stays, with the character it precedes, in the text.
   */
  function ReadToDelimiter(s: string): Option<(string, string)> {
    if s == "" then None
    else if s[0] == '|' then Some(("", s[1..]))
    else if s[0] == '\\' then
      if |s| == 1 then None
      else
        var r := ReadToDelimiter(s[2..]);
        if r.None? then None
        else Some(((if s[1] == '|' then "|" else s[..2]) + r.value.0, r.value.1))
    else
      var r := ReadToDelimiter(s[1..]);
      if r.None? then None else Some(([s[0]] + r.value.0, r.value.1))
  }

  /** What the regular expression becomes once the delimiters are unescaped. */
  function Pattern(secret: string): string {
    if secret == "" then "" else Unescaped(secret[0]) + Pattern(secret[1..])
  }

  function Unescaped(c: char): string {
    if c in ESCAPED && c != '|' then ['\\', c] else [c]
  }

  lemma {:induction false} DelimiterFound(secret: string, rest: string)
    ensures ReadToDelimiter(Escape(secret) + "|" + rest) == Some((Pattern(secret), rest))
    decreases |secret|
  {
    var s := Escape(secret) + "|" + rest;
    if secret == "" {
      assert s == "|" + rest;
    } else {
      var tail := Escape(secret[1..]) + "|" + rest;
      DelimiterFound(secret[1..], rest);
      if secret[0] in ESCAPED {
        assert s == ['\\', secret[0]] + tail;
        assert s[2..] == tail;
      } else {
        assert s == [secret[0]] + tail;
        assert s[1..] == tail;
      }
    }
  }

  // ----- Basic regular expressions, sections 9.3.2 and 9.3.3 of POSIX.1-2017 XBD -----

  datatype Atom = Literal(c: char) | AnyChar | LineStart | LineEnd

  datatype Piece = Piece(atom: Atom, starred: bool)

  const SPECIAL := {'.', '[', '\\', '*', '^', '$'}

  /** The atom at the front of an expression and its length; None for brackets, groups and undefined escapes. */
  function FirstAtom(p: string, first: bool): Option<(Atom, nat)>
    requires p != ""
    ensures FirstAtom(p, first).Some? ==> 1 <= FirstAtom(p, first).value.1 <= |p|
  {
    match p[0]
    case '\\' => if |p| > 1 && p[1] in SPECIAL then Some((Literal(p[1]), 2)) else None
    case '[' => None
    case '.' => Some((AnyChar, 1))
    case '*' => if first then Some((Literal('*'), 1)) else None
    case '^' => if first then Some((LineStart, 1)) else Some((Literal('^'), 1))
    case '$' => if |p| == 1 then Some((LineEnd, 1)) else Some((Literal('$'), 1))
    case c => Some((Literal(c), 1))
  }

  /** `first` holds at the start of the expression and after an initial anchor. */
  function Parse(p: string, first: bool): Option<seq<Piece>>
    decreases |p|
  {
    if p == "" then Some([])
    else
      var a := FirstAtom(p, first);
      if a.None? then None
      else
        var (atom, n) := a.value;
        var starred := n < |p| && p[n] == '*' && !atom.LineStart?;
        var rest := Parse(p[n + if starred then 1 else 0..], atom.LineStart?);
        if rest.None? then None else Some([Piece(atom, starred)] + rest.value)
  }

  predicate AtomMatches(atom: Atom, c: char) {
    match atom
    case Literal(d) => c == d
    case AnyChar => true
    case _ => false
  }

  /** The pieces match exactly the text of `line` between i and j. */
  predicate Matches(pieces: seq<Piece>, line: string, i: nat, j: nat)
    requires i <= j <= |line|
    decreases |pieces|, j - i
  {
    if pieces == [] then i == j
    else
      var piece := pieces[0];
      if piece.atom.LineStart? then i == 0 && Matches(pieces[1..], line, i, j)
      else if piece.atom.LineEnd? then i == |line| && Matches(pieces[1..], line, i, j)
      else if piece.starred then
        || Matches(pieces[1..], line, i, j)
        || (i < j && AtomMatches(piece.atom, line[i]) && Matches(pieces, line, i + 1, j))
      else i < j && AtomMatches(piece.atom, line[i]) && Matches(pieces[1..], line, i + 1, j)
  }

  function Literals(secret: string): (r: seq<Piece>)
    ensures |r| == |secret| && forall i | 0 <= i < |r| :: r[i] == Piece(Literal(secret[i]), false)
  {
    seq(|secret|, i requires 0 <= i < |secret| => Piece(Literal(secret[i]), false))
  }

  lemma PatternStart(secret: string)
    ensures Pattern(secret) == "" || Pattern(secret)[0] != '*'
  {
  }

  lemma FirstAtomIsLiteral(c: char, tail: string, first: bool)
    ensures FirstAtom(Unescaped(c) + tail, first) == Some((Literal(c), |Unescaped(c)|))
  {
  }

  lemma ParseLiteral(c: char, tail: string, first: bool)
    requires tail == "" || tail[0] != '*'
    ensures Parse(Unescaped(c) + tail, first)
      == match Parse(tail, false)
         case None => None
         case Some(rest) => Some([Piece(Literal(c), false)] + rest)
  {
    var p, n := Unescaped(c) + tail, |Unescaped(c)|;
    FirstAtomIsLiteral(c, tail, first);
    hide FirstAtom, Unescaped;
    assert p[n..] == tail;
  }

  lemma {:induction false} PatternIsLiteral(secret: string, first: bool)
    ensures Parse(Pattern(secret), first) == Some(Literals(secret))
    decreases |secret|
  {
    if secret != "" {
      PatternStart(secret[1..]);
      PatternIsLiteral(secret[1..], false);
      ParseLiteral(secret[0], Pattern(secret[1..]), first);
      hide Parse;
      assert Literals(secret) == [Piece(Literal(secret[0]), false)] + Literals(secret[1..]);
    }
  }

  lemma {:induction false} LiteralsMatchThemselves(secret: string, line: string, i: nat, j: nat)
    requires i <= j <= |line|
    ensures Matches(Literals(secret), line, i, j) <==> line[i..j] == secret
    decreases |secret|
  {
    if secret != "" {
      assert Literals(secret)[1..] == Literals(secret[1..]);
      if i < j {
        LiteralsMatchThemselves(secret[1..], line, i + 1, j);
        assert line[i..j] == [line[i]] + line[i + 1..j];
      }
    }
  }

  lemma {:induction false} MarkReadsAsItself(mark: string)
    requires '|' !in mark && '\\' !in mark
    ensures ReadToDelimiter(mark + "|g") == Some((mark, "g"))
  {
    var s := mark + "|g";
    if mark == "" {
      assert s == "|g" && s[1..] == "g";
    } else {
      MarkReadsAsItself(mark[1..]);
      assert s[1..] == mark[1..] + "|g";
      assert mark == [mark[0]] + mark[1..];
    }
  }

  // ----- Running the command (line 46) -----

  /** The end of the longest match starting at i and ending at most at j; i when there is none. */
  function LongestMatch(pieces: seq<Piece>, line: string, i: nat, j: nat): (end: nat)
    requires i <= j <= |line|
    ensures i <= end <= j
    ensures end > i ==> Matches(pieces, line, i, end)
    ensures forall k | end < k <= j :: !Matches(pieces, line, i, k)
    decreases j
  {
    if j == i then i
    else if Matches(pieces, line, i, j) then j
    else LongestMatch(pieces, line, i, j - 1)
  }

  /** Flag g: leftmost longest matches from position i on are replaced; a pattern that matches nothing empty. */
  function SubstituteLine(pieces: seq<Piece>, line: string, i: nat, mark: string): string
    requires i <= |line|
    decreases |line| - i
  {
    if i == |line| then ""
    else
      var end := LongestMatch(pieces, line, i, |line|);
      if end > i then mark + SubstituteLine(pieces, line, end, mark)
      else [line[i]] + SubstituteLine(pieces, line, i + 1, mark)
  }

  /** sed works line by line and keeps the line ends. */
  function SubstituteLines(pieces: seq<Piece>, lines: seq<string>, mark: string): string
    requires |lines| >= 1
  {
    var line := SubstituteLine(pieces, lines[0], 0, mark);
    if |lines| == 1 then line else line + "\n" + SubstituteLines(pieces, lines[1..], mark)
  }

  /** None: sed rejects the command. */
  function Sed(command: string, text: string): Option<string> {
    if !HasPrefix(command, "s|") then None
    else
      var pattern := ReadToDelimiter(command[2..]);
      if pattern.None? then None
      else
        var mark := ReadToDelimiter(pattern.value.1);
        var pieces := Parse(pattern.value.0, true);
        if mark.None? || mark.value.1 != "g" || pieces.None? then None
        else Some(SubstituteLines(pieces.value, Split(text, '\n'), mark.value.0))
  }

  function Command(secret: string): string {
    "s|" + Escape(secret) + "|" + MARK + "|g"
  }

  lemma {:induction false} LineSubstitutionIsReplacement(secret: string, line: string, i: nat, mark: string)
    requires secret != "" && i <= |line|
    ensures SubstituteLine(Literals(secret), line, i, mark) == ReplaceAll(line[i..], secret, mark)
    decreases |line| - i
  {
    hide ReplaceAll, Matches, Literals, LongestMatch;
    if i == |line| {
      assert line[i..] == "";
      EmptyKept(secret, mark);
    } else {
      var end := LongestMatch(Literals(secret), line, i, |line|);
      LiteralsMatchThemselves(secret, line, i, end);
      if secret <= line[i..] {
        var j := i + |secret|;
        assert line[i..j] == line[i..][..|secret|] == secret;
        LiteralsMatchThemselves(secret, line, i, j);
        assert end >= j && |line[i..end]| == |secret|;
        LineSubstitutionIsReplacement(secret, line, j, mark);
        assert line[i..][|secret|..] == line[j..];
        MatchReplaced(line[i..], secret, mark);
      } else {
        assert line[i..end] <= line[i..];
        LineSubstitutionIsReplacement(secret, line, i + 1, mark);
        assert line[i..][1..] == line[i + 1..];
        ReplaceAllSteps(line[i..], secret, mark);
      }
    }
  }

  lemma {:induction false} LinesSubstitutionIsReplacement(secret: string, lines: seq<string>, mark: string)
    requires secret != "" && '\n' !in secret && |lines| >= 1
    ensures SubstituteLines(Literals(secret), lines, mark) == ReplaceAll(Join(lines, '\n'), secret, mark)
    decreases |lines|
  {
    hide ReplaceAll, SubstituteLine;
    LineSubstitutionIsReplacement(secret, lines[0], 0, mark);
    assert lines[0][0..] == lines[0];
    if |lines| > 1 {
      LinesSubstitutionIsReplacement(secret, lines[1..], mark);
      ReplaceAllByParts(lines[0], '\n', Join(lines[1..], '\n'), secret, mark);
    }
  }

  /**
   sed accepts the command built from any secret line, and running it replaces exactly the literal
   occurrences of the secret, whatever characters the secret holds.
   */
  lemma RedactionIsLiteral(secret: string, text: string)
    requires secret != "" && '\n' !in secret
    ensures Sed(Command(secret), text) == Some(ReplaceAll(text, secret, MARK))
  {
    hide SubstituteLines, ReplaceAll, Parse, Split, Join, Matches;
    var rest := Escape(secret) + "|" + (MARK + "|g");
    assert Command(secret) == "s|" + rest;
    assert Command(secret)[2..] == rest;
    DelimiterFound(secret, MARK + "|g");
    MarkReadsAsItself(MARK);
    PatternIsLiteral(secret, true);
    LinesSubstitutionIsReplacement(secret, Split(text, '\n'), MARK);
    JoinSplit(text, '\n');
  }

  // ----- The redaction loop and the fail-safe (lines 9-62) -----

  /** The lines the loop reads: the non-empty secrets, one after the other, cut at their line ends. */
  function SecretLines(secrets: seq<string>): (lines: seq<string>)
    ensures forall line | line in lines :: '\n' !in line
  {
    if secrets == [] then []
    else SecretLines(secrets[..|secrets| - 1]) + Split(secrets[|secrets| - 1], '\n')
  }

  /** Every line of every secret reported is in the list, and nothing else ... */
  lemma {:induction false} SecretLinesAre(secrets: seq<string>, line: string)
    ensures line in SecretLines(secrets) <==> exists s :: s in secrets && line in Split(s, '\n')
  {
    if secrets != [] {
      var before, last := secrets[..|secrets| - 1], secrets[|secrets| - 1];
      SecretLinesAre(before, line);
      assert secrets == before + [last];
      assert last in secrets;
    }
  }

  /** ... in the order in which they were reported. */
  lemma {:induction false} SecretLinesInOrder(a: seq<string>, b: seq<string>)
    ensures SecretLines(a + b) == SecretLines(a) + SecretLines(b)
    decreases |b|
  {
    hide Split;
    if b == [] {
      assert a + b == a;
    } else {
      SecretLinesInOrder(a, b[..|b| - 1]);
      assert (a + b)[..|a + b| - 1] == a + b[..|b| - 1];
    }
  }

  lemma OneSecret(s: string)
    ensures SecretLines([s]) == Split(s, '\n')
  {
    hide Split;
    assert [s][..0] == [] && SecretLines([]) == [];
  }

  function RedactAll(text: string, lines: seq<string>): string {
    if lines == [] then text
    else
      var before := RedactAll(text, lines[..|lines| - 1]);
      var last := lines[|lines| - 1];
      if last == "" then before else ReplaceAll(before, last, MARK)
  }

  /** The fail-safe's write: done, refused before the file was touched, or cut short after it was emptied. */
  datatype Write = Done | Refused | CutShort(kept: nat)

  /** What can go wrong on the way: the copy, sed at some of the lines, the rename, the fail-safe's write. */
  datatype Faults = Faults(copy: bool, sed: set<nat>, rename: bool, write: Write)

  /** The log after the fail-safe: it never holds more than the fail message, unless nothing could be written. */
  function FailedLog(log: Option<string>, write: Write): (r: Option<string>)
    ensures r == log || (r.Some? && r.value <= FAIL_MESSAGE + "\n")
    ensures write.Done? ==> r == Some(FAIL_MESSAGE + "\n")
    ensures !write.Refused? ==> r.Some? && r.value <= FAIL_MESSAGE + "\n"
  {
    var message := FAIL_MESSAGE + "\n";
    match write
    case Done => Some(message)
    case Refused => log
    case CutShort(kept) => Some(if kept < |message| then message[..kept] else message)
  }

  predicate SedFails(lines: seq<string>, faults: Faults) {
    exists k | 0 <= k < |lines| :: lines[k] != "" && k in faults.sed
  }

  /** `output`: what the scanner printed, None when it failed; `secrets`: what it means, None when it cannot be
      parsed. */
  datatype Scan = Scan(output: Option<string>, secrets: Option<seq<string>>)

  predicate NothingReported(scan: Scan) {
    scan.output == Some("") ||
    (scan.output.Some? && scan.secrets.Some? && forall line | line in SecretLines(scan.secrets.value) :: line == "")
  }

  /** Nothing is reported exactly when the scanner printed nothing, or no secret it means has a line with text. */
  lemma NothingReportedIff(scan: Scan)
    ensures NothingReported(scan) <==>
      scan.output == Some("") || (scan.output.Some? && scan.secrets.Some? && forall s, line ::
        s in scan.secrets.value && line in Split(s, '\n') ==> line == "")
  {
    hide SecretLines;
    if scan.secrets.Some? {
      var secrets := scan.secrets.value;
      if line :| line in SecretLines(secrets) && line != "" {
        SecretLinesAre(secrets, line);
      } else {
        forall s, line | s in secrets && line in Split(s, '\n') ensures line == "" {
          SecretLinesAre(secrets, line);
        }
      }
    }
  }

  predicate SomethingFails(scan: Scan, faults: Faults) {
    || scan.output.None?
    || (scan.output.value != "" && scan.secrets.None?)
    || (!NothingReported(scan)
        && (faults.copy || faults.rename || SedFails(SecretLines(scan.secrets.value), faults)))
  }

  /** What a run without a failure leaves of the reported secrets. */
  lemma ReportedLinesGo(scan: Scan, faults: Faults, log: Option<string>)
    ensures log.Some? && scan.output.Some? && scan.output.value != "" && !SomethingFails(scan, faults) ==>
      && scan.secrets.Some?
      && forall s, line | s in scan.secrets.value && line in Split(s, '\n') && NoClash(line, MARK) ::
        && !NothingReported(scan)
        && !Occurs(line, RedactAll(log.value, SecretLines(scan.secrets.value)))
  {
    if log.Some? && scan.output.Some? && scan.output.value != "" && !SomethingFails(scan, faults) {
      var secrets := scan.secrets.value;
      hide Occurs, RedactAll, SecretLines, Comparable;
      forall s, line | s in secrets && line in Split(s, '\n') && NoClash(line, MARK)
        ensures !NothingReported(scan) && !Occurs(line, RedactAll(log.value, SecretLines(secrets)))
      {
        SecretLinesAre(secrets, line);
        assert line != "";
        LineIsGone(log.value, SecretLines(secrets), line);
      }
    }
  }

  class Workspace {
    var log: Option<string>
    var copy: Option<string>

    constructor (log: Option<string>)
      ensures this.log == log && copy == None
    {
      this.log, copy := log, None;
    }

    method FailSafe(faults: Faults)
      modifies this`log
      ensures log == FailedLog(old(log), faults.write)
    {
      if faults.write.Refused? {
        return;
      }
      log := Some("");
      var message := FAIL_MESSAGE + "\n";
      if faults.write.CutShort? && faults.write.kept < |message| {
        message := message[..faults.write.kept];
      }
      log := Some(message);
    }

    /** Rewrites the copy line by line; the log itself is not touched. */
    method Redact(lines: seq<string>, faults: Faults) returns (failed: bool)
      requires copy.Some?
      requires forall line | line in lines :: '\n' !in line
      modifies this`copy
      ensures failed <==> SedFails(lines, faults)
      ensures copy.Some?
      ensures !failed ==> copy.value == RedactAll(old(copy).value, lines)
    {
      failed := false;
      for k := 0 to |lines|
        invariant copy.Some? && !failed
        invariant !SedFails(lines[..k], faults)
        invariant copy.value == RedactAll(old(copy).value, lines[..k])
      {
        var secret := lines[k];
        assert lines[..k + 1][..k] == lines[..k];
        if secret != "" {
          var result := Sed(Command(secret), copy.value);
          RedactionIsLiteral(secret, copy.value);
          if k in faults.sed || result.None? {
            failed := true;
            break;
          }
          copy := result;
        }
      }
      assert !failed ==> lines[..|lines|] == lines;
    }

    /**
     The log ends as it was, fully redacted or as the fail message (perhaps cut short), each exactly when:
     a partly redacted copy is never renamed over it.
     */
    method Sanitize(scan: Scan, faults: Faults)
      modifies this
      ensures old(log).None? ==> log.None?
      ensures old(log).Some? && SomethingFails(scan, faults) ==>
        log == FailedLog(old(log), faults.write)
      ensures old(log).Some? && NothingReported(scan) ==> log == old(log)
      ensures old(log).Some? && !SomethingFails(scan, faults) && !NothingReported(scan) ==>
        log == Some(RedactAll(old(log).value, SecretLines(scan.secrets.value)))
      ensures old(log).Some? && scan.output.Some? && scan.output.value != "" && !SomethingFails(scan, faults) ==>
        && log.Some? && scan.secrets.Some?
        && forall s, line | s in scan.secrets.value && line in Split(s, '\n') && NoClash(line, MARK) ::
          !Occurs(line, log.value)
      ensures scan.output.Some? && scan.secrets.Some? && faults.sed == {} && !faults.copy && !faults.rename ==>
        !SomethingFails(scan, faults)
    {
      ReportedLinesGo(scan, faults, log);
      if log.None? {
        return;
      }
      if scan.output.None? {
        FailSafe(faults);
        return;
      }
      if scan.output.value == "" {
        return;
      }
      if scan.secrets.None? {
        FailSafe(faults);
        return;
      }
      var lines := SecretLines(scan.secrets.value);
      if forall line | line in lines :: line == "" {
        return;
      }
      if faults.copy {
        copy := *;
        FailSafe(faults);
        return;
      }
      copy := log;
      var failed := Redact(lines, faults);
      if failed {
        FailSafe(faults);
        return;
      }
      if faults.rename {
        FailSafe(faults);
        return;
      }
      log, copy := copy, None;
    }
  }

  // ----- What a redacted log no longer holds -----

  lemma {:induction false} LineIsGone(text: string, lines: seq<string>, line: string)
    requires line in lines && NoClash(line, MARK)
    ensures !Occurs(line, RedactAll(text, lines))
  {
    var last := lines[|lines| - 1];
    var before := RedactAll(text, lines[..|lines| - 1]);
    if last == line {
      ReplacedIsGone(before, line, MARK);
    } else {
      LineIsGone(text, lines[..|lines| - 1], line);
      if last != "" && Occurs(line, ReplaceAll(before, last, MARK)) {
        NoNewOccurrence(before, last, MARK, line);
      }
    }
  }

  lemma OneLineRedacted(text: string, line: string)
    requires line != ""
    ensures RedactAll(text, [line]) == ReplaceAll(text, line, MARK)
  {
  }

  /**
   A reported line is absent from every redacted log, whatever else is reported, exactly when it cannot
   overlap the mark; otherwise some log still shows it after a successful run.
   */
  lemma GoneIffNoClash(line: string)
    requires line != ""
    ensures NoClash(line, MARK) <==> forall text, lines | line in lines :: !Occurs(line, RedactAll(text, lines))
  {
    if NoClash(line, MARK) {
      forall text, lines | line in lines ensures !Occurs(line, RedactAll(text, lines)) {
        LineIsGone(text, lines, line);
      }
    } else {
      var text := ClashLeaks(line, MARK);
      OneLineRedacted(text, line);
      assert line in [line];
    }
  }

  /** A log that none of the reported lines occurs in is kept. */
  lemma {:induction false} CleanLogKept(text: string, lines: seq<string>)
    requires forall line | line in lines && line != "" :: !Occurs(line, text)
    ensures RedactAll(text, lines) == text
  {
    if lines != [] {
      CleanLogKept(text, lines[..|lines| - 1]);
      var last := lines[|lines| - 1];
      if last != "" {
        NothingToReplace(text, last, MARK);
      }
    }
  }
}
