/** Host, path and key of a repository: internal/utils/utils.go and internal/utils/sanitize.go. */
module RepoIdentity {
  import opened Wrappers
  import opened Text

  /** What RepoBranchHash hashes. */
  function BranchKey(host: string, repository: string, branch: string): string {
    host + "/" + repository + "@" + branch
  }

  // ----- Cutting at the first separator: strings.SplitN(s, sep, 2) -----

  function Cut(s: string, sep: char): (r: Option<(string, string)>)
    ensures r.None? <==> sep !in s
    ensures r.Some? ==> s == r.value.0 + [sep] + r.value.1 && sep !in r.value.0
  {
    if s == "" then None
    else if s[0] == sep then Some(("", s[1..]))
    else
      var r := Cut(s[1..], sep);
      if r.None? then None else Some(([s[0]] + r.value.0, r.value.1))
  }

  lemma {:induction false} CutIs(before: string, sep: char, after: string)
    requires sep !in before
    ensures Cut(before + [sep] + after, sep) == Some((before, after))
    decreases |before|
  {
    var s := before + [sep] + after;
    if before == "" {
      assert s == [sep] + after && s[1..] == after;
    } else {
      CutIs(before[1..], sep, after);
      assert s[1..] == before[1..] + [sep] + after;
      assert [s[0]] + before[1..] == before;
    }
  }

  // ----- The plain URLs of section 3 of RFC 3986 -----

  datatype Url = Url(hostname: string, path: string)

  predicate Letter(c: char) {
    'a' <= c <= 'z' || 'A' <= c <= 'Z'
  }

  predicate Digit(c: char) {
    '0' <= c <= '9'
  }

  predicate SchemeName(s: string) {
    s != "" && forall c | c in s :: 'a' <= c <= 'z'
  }

  predicate HostName(s: string) {
    s != "" && forall c | c in s :: Letter(c) || Digit(c) || c in ".-"
  }

  predicate Port(s: string) {
    s != "" && forall c | c in s :: Digit(c)
  }

  /** Unreserved characters and the separator. */
  predicate PlainPath(s: string) {
    forall c | c in s :: Letter(c) || Digit(c) || c in "-._~/"
  }

  /** scheme "://" host [":" port] ["/" path], with plain characters only. */
  function ParsePlain(s: string): Option<Url> {
    var cut := Cut(s, ':');
    if cut.None? || !SchemeName(cut.value.0) || !HasPrefix(cut.value.1, "//") then None
    else
      var rest := cut.value.1[2..];
      var slash := Cut(rest, '/');
      var authority := if slash.None? then rest else slash.value.0;
      var path := if slash.None? then "" else "/" + slash.value.1;
      var colon := Cut(authority, ':');
      var host := if colon.None? then authority else colon.value.0;
      if HostName(host) && PlainPath(path) && (colon.None? || Port(colon.value.1)) then Some(Url(host, path))
      else None
  }

  /** The URL library: any function that reads plain URLs as the RFC says; None is an error. */
  type Parser = string -> Option<Url>

  ghost predicate ReadsPlainUrls(parse: Parser) {
    forall s :: ParsePlain(s).Some? ==> parse(s) == ParsePlain(s)
  }

  // ----- The code -----

  datatype Error = InvalidSshUrl | InvalidUrl

  function GetGitHost(giturl: string, parse: Parser): Result<string, Error> {
    if '@' in giturl then
      var parts := Cut(giturl, ':');
      if parts.None? then Failure(InvalidSshUrl)
      else
        var hostPart := Cut(parts.value.0, '@');
        if hostPart.None? then Failure(InvalidSshUrl) else Success(hostPart.value.1)
    else
      var u := parse(giturl);
      if u.None? then Failure(InvalidUrl) else Success(u.value.hostname)
  }

  function GetGitPath(giturl: string, parse: Parser): Result<string, Error> {
    var trimmed := TrimSuffix(TrimSuffix(giturl, "/"), ".git");
    if '@' in trimmed then
      var parts := Cut(trimmed, ':');
      if parts.None? then Failure(InvalidSshUrl) else Success(TrimPrefix(parts.value.1, "/"))
    else
      var u := parse(trimmed);
      if u.None? then Failure(InvalidUrl) else Success(TrimPrefix(u.value.path, "/"))
  }

  // ----- The spellings of one repository -----

  datatype Spelling =
    | Web(scheme: string, port: Option<string>)
    | Ssh(user: string, slash: bool)

  predicate Spells(spelling: Spelling) {
    match spelling
    case Web(scheme, port) => SchemeName(scheme) && (port.Some? ==> Port(port.value))
    case Ssh(user, _) => '@' !in user && ':' !in user
  }

  const SUFFIXES := ["", "/", ".git", ".git/"]

  predicate RepositoryName(repository: string) {
    && repository != "" && PlainPath(repository)
    && repository[0] != '/'
    && !HasSuffix(repository, "/") && !HasSuffix(repository, ".git")
  }

  function Front(spelling: Spelling, host: string): string {
    match spelling
    case Web(scheme, port) => scheme + "://" + host + (if port.Some? then ":" + port.value else "") + "/"
    case Ssh(user, slash) => user + "@" + host + ":" + if slash then "/" else ""
  }

  function Spell(spelling: Spelling, host: string, repository: string, suffix: string): string {
    Front(spelling, host) + repository + suffix
  }

  lemma SuffixTrimmed(front: string, repository: string, suffix: string)
    requires RepositoryName(repository) && suffix in SUFFIXES
    requires front != "" && front[|front| - 1] in "/:"
    ensures var giturl := front + repository + suffix;
      TrimSuffix(TrimSuffix(giturl, "/"), ".git") == front + repository
  {
    var giturl := front + repository + suffix;
    var bare := front + repository;
    assert bare[|bare| - 1..] == repository[|repository| - 1..];
    NoGitSuffix(front, repository);
    if suffix == "/" || suffix == ".git/" {
      assert giturl[|giturl| - 1..] == "/";
      assert giturl[..|giturl| - 1] == bare + suffix[..|suffix| - 1];
    } else if suffix == ".git" {
      assert giturl[|giturl| - 1..] == "t";
    } else {
      assert giturl == bare;
    }
    if suffix == ".git" || suffix == ".git/" {
      var longer := bare + ".git";
      assert longer[|longer| - 4..] == ".git" && longer[..|longer| - 4] == bare;
      assert TrimSuffix(giturl, "/") == longer;
    } else {
      assert TrimSuffix(giturl, "/") == bare;
    }
  }

  lemma NoGitSuffix(front: string, repository: string)
    requires RepositoryName(repository) && front != "" && front[|front| - 1] in "/:"
    ensures !HasSuffix(front + repository, ".git")
  {
    var bare := front + repository;
    if |repository| >= 4 {
      assert bare[|bare| - 4..] == repository[|repository| - 4..];
    } else if |bare| >= 4 {
      var end := bare[|bare| - 4..];
      assert end[3 - |repository|] == front[|front| - 1];
    }
  }

  lemma AuthorityParsed(host: string, port: Option<string>)
    requires HostName(host) && (port.Some? ==> Port(port.value))
    ensures var authority := host + if port.Some? then ":" + port.value else "";
      && '/' !in authority
      && Cut(authority, ':') == if port.Some? then Some((host, port.value)) else None
  {
    var authority := host + if port.Some? then ":" + port.value else "";
    assert ':' !in host && '/' !in host;
    if port.Some? {
      CutIs(host, ':', port.value);
      assert authority == host + [':'] + port.value;
    } else {
      assert authority == host;
    }
  }

  lemma WebUrlParsed(scheme: string, host: string, port: Option<string>, path: string)
    requires SchemeName(scheme) && HostName(host) && (port.Some? ==> Port(port.value)) && PlainPath(path)
    ensures ParsePlain(Front(Web(scheme, port), host) + path) == Some(Url(host, "/" + path))
  {
    hide Cut, HostName;
    var authority := host + if port.Some? then ":" + port.value else "";
    var rest := authority + ['/'] + path;
    AuthorityParsed(host, port);
    assert Front(Web(scheme, port), host) + path == scheme + [':'] + ("//" + rest);
    assert ':' !in scheme;
    CutIs(scheme, ':', "//" + rest);
    assert ("//" + rest)[2..] == rest;
    CutIs(authority, '/', path);
    assert PlainPath("/" + path);
    assert port.None? ==> authority == host;
    assert HasPrefix("//" + rest, "//");
  }

  lemma NoAtInWebUrl(scheme: string, host: string, port: Option<string>, path: string)
    requires SchemeName(scheme) && HostName(host) && (port.Some? ==> Port(port.value)) && PlainPath(path)
    ensures '@' !in Front(Web(scheme, port), host) + path
  {
  }

  lemma SuffixIsPlain(suffix: string)
    requires suffix in SUFFIXES
    ensures PlainPath(suffix)
  {
  }

  lemma WebUrlRead(scheme: string, host: string, port: Option<string>, path: string, parse: Parser)
    requires SchemeName(scheme) && HostName(host) && (port.Some? ==> Port(port.value)) && PlainPath(path)
    requires ReadsPlainUrls(parse)
    ensures var giturl := Front(Web(scheme, port), host) + path;
      '@' !in giturl && parse(giturl) == Some(Url(host, "/" + path))
  {
    WebUrlParsed(scheme, host, port, path);
    NoAtInWebUrl(scheme, host, port, path);
  }

  lemma WebSpelling(
    scheme: string, port: Option<string>, host: string, repository: string, suffix: string, parse: Parser)
    requires Spells(Web(scheme, port)) && HostName(host) && RepositoryName(repository) && suffix in SUFFIXES
    requires ReadsPlainUrls(parse)
    ensures GetGitHost(Spell(Web(scheme, port), host, repository, suffix), parse) == Success(host)
    ensures GetGitPath(Spell(Web(scheme, port), host, repository, suffix), parse) == Success(repository)
  {
    var front := Front(Web(scheme, port), host);
    SuffixTrimmed(front, repository, suffix);
    SuffixIsPlain(suffix);
    assert PlainPath(repository + suffix);
    hide *;
    SpellIs(Web(scheme, port), host, repository, suffix);
    Associates(front, repository, suffix);
    WebPartsFit(scheme, port, repository);
    WebUrlRead(scheme, host, port, repository + suffix, parse);
    WebUrlRead(scheme, host, port, repository, parse);
    WebAccepted(front + repository + suffix, host, repository + suffix, front + repository, repository, parse);
  }

  lemma WebPartsFit(scheme: string, port: Option<string>, repository: string)
    requires Spells(Web(scheme, port)) && RepositoryName(repository)
    ensures SchemeName(scheme) && (port.Some? ==> Port(port.value)) && PlainPath(repository)
  {
  }

  lemma WebAccepted(giturl: string, host: string, path: string, trimmed: string, trimmedPath: string, parse: Parser)
    requires '@' !in giturl && parse(giturl) == Some(Url(host, "/" + path))
    requires TrimSuffix(TrimSuffix(giturl, "/"), ".git") == trimmed
    requires '@' !in trimmed && parse(trimmed) == Some(Url(host, "/" + trimmedPath))
    ensures GetGitHost(giturl, parse) == Success(host)
    ensures GetGitPath(giturl, parse) == Success(trimmedPath)
  {
    assert ("/" + trimmedPath)[1..] == trimmedPath;
  }

  lemma SshSpelling(user: string, slash: bool, host: string, repository: string, suffix: string, parse: Parser)
    requires Spells(Ssh(user, slash)) && HostName(host) && RepositoryName(repository) && suffix in SUFFIXES
    ensures GetGitHost(Spell(Ssh(user, slash), host, repository, suffix), parse) == Success(host)
    ensures GetGitPath(Spell(Ssh(user, slash), host, repository, suffix), parse) == Success(repository)
  {
    var front, sep := Front(Ssh(user, slash), host), if slash then "/" else "";
    var login := user + "@" + host + ":";
    assert front == login + sep;
    SuffixTrimmed(front, repository, suffix);
    SlashTrimmed(slash, repository);
    hide *;
    Associates(login, sep, repository);
    Associates(login, sep + repository, suffix);
    SshUrlRead(user, host, sep + repository + suffix);
    SshUrlRead(user, host, sep + repository);
    SshAccepted(
      front + repository + suffix, user, host, sep + repository + suffix, front + repository, sep + repository, parse);
    assert Spell(Ssh(user, slash), host, repository, suffix) == front + repository + suffix by {
      SpellIs(Ssh(user, slash), host, repository, suffix);
    }
  }

  lemma SpellIs(spelling: Spelling, host: string, repository: string, suffix: string)
    ensures Spell(spelling, host, repository, suffix) == Front(spelling, host) + repository + suffix
  {
  }

  lemma SshAccepted(
    giturl: string, user: string, host: string, path: string, trimmed: string, trimmedPath: string, parse: Parser)
    requires '@' in giturl && Cut(giturl, ':') == Some((user + "@" + host, path))
    requires Cut(user + "@" + host, '@') == Some((user, host))
    requires TrimSuffix(TrimSuffix(giturl, "/"), ".git") == trimmed
    requires '@' in trimmed && Cut(trimmed, ':') == Some((user + "@" + host, trimmedPath))
    ensures GetGitHost(giturl, parse) == Success(host)
    ensures GetGitPath(giturl, parse) == Success(TrimPrefix(trimmedPath, "/"))
  {
  }

  lemma SlashTrimmed(slash: bool, repository: string)
    requires RepositoryName(repository)
    ensures TrimPrefix((if slash then "/" else "") + repository, "/") == repository
  {
  }

  /** Every spelling of a repository, with or without a trailing slash or .git, gives its host and path. */
  lemma SpellingsAgree(
    spelling: Spelling, host: string, repository: string, suffix: string, parse: Parser)
    requires Spells(spelling) && HostName(host) && RepositoryName(repository) && suffix in SUFFIXES
    requires ReadsPlainUrls(parse)
    ensures GetGitHost(Spell(spelling, host, repository, suffix), parse) == Success(host)
    ensures GetGitPath(Spell(spelling, host, repository, suffix), parse) == Success(repository)
  {
    match spelling
    case Web(scheme, port) => WebSpelling(scheme, port, host, repository, suffix, parse);
    case Ssh(user, slash) => SshSpelling(user, slash, host, repository, suffix, parse);
  }

  lemma SshUrlRead(user: string, host: string, path: string)
    requires '@' !in user && ':' !in user && HostName(host)
    ensures var giturl := user + "@" + host + ":" + path;
      '@' in giturl && Cut(giturl, ':') == Some((user + "@" + host, path))
    ensures Cut(user + "@" + host, '@') == Some((user, host))
  {
    var giturl := user + "@" + host + ":" + path;
    assert giturl[|user|] == '@';
    assert giturl == (user + "@" + host) + [':'] + path;
    CutIs(user + "@" + host, ':', path);
    assert user + "@" + host == user + ['@'] + host;
    CutIs(user, '@', host);
  }

  /** A URL with a scheme and a user part gives no host: the text before the first colon is taken for user@host. */
  lemma UserPartRejected(scheme: string, rest: string, parse: Parser)
    requires SchemeName(scheme) && '@' in rest
    ensures GetGitHost(scheme + "://" + rest, parse) == Failure(InvalidSshUrl)
  {
    var giturl := scheme + "://" + rest;
    assert giturl == scheme + [':'] + ("//" + rest);
    CutIs(scheme, ':', "//" + rest);
    var i :| 0 <= i < |rest| && rest[i] == '@';
    assert giturl[|scheme| + 3 + i] == '@';
  }

  lemma TrimmingKeeps(s: string, suffix: string, c: char)
    requires c in s && c !in suffix
    ensures c in TrimSuffix(s, suffix) && forall d | d in TrimSuffix(s, suffix) :: d in s
  {
    if HasSuffix(s, suffix) {
      assert s == s[..|s| - |suffix|] + suffix;
    }
  }

  /** A login without a path gives neither host nor path, with any trailing slash or .git. */
  lemma NoColonRejected(giturl: string, parse: Parser)
    requires '@' in giturl && ':' !in giturl
    ensures GetGitHost(giturl, parse) == Failure(InvalidSshUrl)
    ensures GetGitPath(giturl, parse) == Failure(InvalidSshUrl)
  {
    TrimmingKeeps(giturl, "/", '@');
    TrimmingKeeps(TrimSuffix(giturl, "/"), ".git", '@');
  }

  // ----- The key -----

  /** The key determines its parts when hosts have no slash and repositories no at sign. */
  lemma BranchKeyInjective(
    host: string, repository: string, branch: string, host': string, repository': string, branch': string)
    requires '/' !in host && '/' !in host' && '@' !in repository && '@' !in repository'
    requires BranchKey(host, repository, branch) == BranchKey(host', repository', branch')
    ensures host == host' && repository == repository' && branch == branch'
  {
    var rest, rest' := repository + "@" + branch, repository' + "@" + branch';
    assert BranchKey(host, repository, branch) == host + ['/'] + rest;
    assert BranchKey(host', repository', branch') == host' + ['/'] + rest';
    CutIs(host, '/', rest);
    CutIs(host', '/', rest');
    assert rest == repository + ['@'] + branch && rest' == repository' + ['@'] + branch';
    CutIs(repository, '@', branch);
    CutIs(repository', '@', branch');
  }

  /** Neither condition can be dropped: moving a slash or an at sign across the border keeps the key. */
  lemma BranchKeyCollides(a: string, b: string, c: string, branch: string)
    ensures BranchKey(a + "/" + b, c, branch) == BranchKey(a, b + "/" + c, branch)
    ensures BranchKey(a, b + "@" + c, branch) == BranchKey(a, b, c + "@" + branch)
    ensures a + "/" + b != a && b + "@" + c != b
  {
  }

  lemma PlainNamesFit(host: string, repository: string)
    requires HostName(host) && RepositoryName(repository)
    ensures '/' !in host && '@' !in repository
  {
  }

  /** Two URLs and branches get one key exactly when they name the same repository and branch, however spelled. */
  lemma SameKeyIffSameRepository(
    s: Spelling, host: string, repository: string, suffix: string, branch: string,
    s': Spelling, host': string, repository': string, suffix': string, branch': string, parse: Parser)
    requires Spells(s) && HostName(host) && RepositoryName(repository) && suffix in SUFFIXES
    requires Spells(s') && HostName(host') && RepositoryName(repository') && suffix' in SUFFIXES
    requires ReadsPlainUrls(parse)
    ensures
      var url, url' := Spell(s, host, repository, suffix), Spell(s', host', repository', suffix');
      && GetGitHost(url, parse).Success? && GetGitPath(url, parse).Success?
      && GetGitHost(url', parse).Success? && GetGitPath(url', parse).Success?
      && (BranchKey(GetGitHost(url, parse).value, GetGitPath(url, parse).value, branch)
            == BranchKey(GetGitHost(url', parse).value, GetGitPath(url', parse).value, branch')
          <==> host == host' && repository == repository' && branch == branch')
  {
    hide Spells, Spell, GetGitHost, GetGitPath, ReadsPlainUrls, BranchKey;
    PlainNamesFit(host, repository);
    PlainNamesFit(host', repository');
    SpellingsAgree(s, host, repository, suffix, parse);
    SpellingsAgree(s', host', repository', suffix', parse);
    if BranchKey(host, repository, branch) == BranchKey(host', repository', branch') {
      BranchKeyInjective(host, repository, branch, host', repository', branch');
    }
  }
}
