/**
 The choice of the secret for a repository: GetRPMActivationKey in internal/component/base/base.go and
 lookupSecret in internal/component/gitlab/gitlab.go and internal/component/forgejo/forgejo.go.
 The ranking loops of the three are the same text; they are modelled once, in Rank.
 */
module CredentialSelection {
  import opened Wrappers
  import opened Text
  import opened Slices

  datatype SecretType = Opaque | BasicAuth | OtherType

  /** `repositories`: the annotation appstudio.redhat.com/scm.repository. */
  datatype Secret = Secret(
    name: string, secretType: SecretType, data: map<string, string>, repositories: Option<string>)

  // ----- What a secret says about a repository -----

  predicate HostOnly(secret: Secret) {
    secret.repositories.None? || secret.repositories.value == ""
  }

  function TrimName(name: string): string {
    TrimPrefix(TrimSuffix(name, "/"), "/")
  }

  /** `name` is `core` with at most one slash more at each end, and no slash that could go is left. */
  predicate Trimmed(name: string, core: string) {
    exists lead, trail | lead in {"", "/"} && trail in {"", "/"} ::
      && name == lead + core + trail
      && (lead == "" ==> core == "" || core[0] != '/') && (trail == "" ==> core == "" || core[|core| - 1] != '/')
  }

  /** No slash at either end, as the repositories of components are. */
  predicate Plain(name: string) {
    name != "" && name[0] != '/' && name[|name| - 1] != '/'
  }

  lemma TrimNameTrims(name: string)
    ensures Trimmed(name, TrimName(name))
  {
    var short := TrimSuffix(name, "/");
    var trail, lead := if HasSuffix(name, "/") then "/" else "", if HasPrefix(short, "/") then "/" else "";
    assert name == short + trail && short == lead + TrimName(name);
    assert name == lead + TrimName(name) + trail;
  }

  lemma PartsTrim(lead: string, core: string, trail: string)
    requires lead in {"", "/"} && trail in {"", "/"}
    requires lead == "" ==> core == "" || core[0] != '/'
    requires trail == "" ==> core == "" || core[|core| - 1] != '/'
    ensures TrimName(lead + core + trail) == core
  {
    var name := lead + core + trail;
    if lead == "/" && core == "" && trail == "" {
      assert name == "/" && TrimSuffix(name, "/") == "";
    } else {
      var short := lead + core;
      if trail == "/" {
        assert name[|name| - 1..] == "/" && name[..|name| - 1] == short;
      } else if name != "" {
        assert name[|name| - 1] != '/' && name[|name| - 1..][0] == name[|name| - 1];
      }
      assert TrimSuffix(name, "/") == short;
      if lead == "/" {
        assert short[1..] == core;
      } else if core != "" {
        assert short[0] != '/';
      }
      assert TrimPrefix(short, "/") == core;
    }
  }

  lemma TrimNameIs(name: string, core: string)
    ensures TrimName(name) == core <==> Trimmed(name, core)
  {
    TrimNameTrims(name);
    if Trimmed(name, core) {
      var lead, trail :| lead in {"", "/"} && trail in {"", "/"} && name == lead + core + trail
        && (lead == "" ==> core == "" || core[0] != '/') && (trail == "" ==> core == "" || core[|core| - 1] != '/');
      hide TrimName;
      PartsTrim(lead, core, trail);
    }
  }

  lemma PlainTrimmed(name: string, core: string)
    requires Plain(core)
    ensures Trimmed(name, core) <==> name in {core, "/" + core, core + "/", "/" + core + "/"}
  {
    assert "" + core + "" == core && "/" + core + "" == "/" + core && "" + core + "/" == core + "/";
  }

  function TrimNames(names: seq<string>): (r: seq<string>)
    ensures |r| == |names| && forall i | 0 <= i < |r| :: r[i] == TrimName(names[i])
  {
    seq(|names|, i requires 0 <= i < |names| => TrimName(names[i]))
  }

  function Names(secret: Secret): seq<string>
    requires !HostOnly(secret)
  {
    TrimNames(Split(secret.repositories.value, ','))
  }

  predicate Exact(secret: Secret, repository: string) {
    !HostOnly(secret) && repository in Names(secret)
  }

  predicate Wildcard(name: string) {
    HasSuffix(name, "*")
  }

  /** Leading path parts a wildcard shares with the repository; not whether it covers it. */
  function Score(name: string, repository: string): nat {
    if Wildcard(name) then CommonPrefix(Split(repository, '/'), Split(TrimSuffix(name, "*"), '/')) else 0
  }

  function BestScore(names: seq<string>, repository: string): (best: nat) {
    if names == [] then 0
    else
      var last := names[|names| - 1];
      var before := BestScore(names[..|names| - 1], repository);
      if before < Score(last, repository) then Score(last, repository) else before
  }

  lemma {:induction false} BestScoreIsHighest(names: seq<string>, repository: string)
    ensures forall name | name in names :: Score(name, repository) <= BestScore(names, repository)
    ensures BestScore(names, repository) > 0 ==>
      exists name :: name in names && Score(name, repository) == BestScore(names, repository)
  {
    hide Score;
    if names != [] {
      BestScoreIsHighest(names[..|names| - 1], repository);
      assert names == names[..|names| - 1] + [names[|names| - 1]];
    }
  }

  function Rating(secret: Secret, repository: string): nat {
    if HostOnly(secret) then 0 else BestScore(Names(secret), repository)
  }

  // ----- The specification -----

  predicate FirstExact(secrets: seq<Secret>, repository: string, i: nat) {
    i < |secrets| && Exact(secrets[i], repository) && forall k | 0 <= k < i :: !Exact(secrets[k], repository)
  }

  predicate FirstHostOnly(secrets: seq<Secret>, i: nat) {
    i < |secrets| && HostOnly(secrets[i]) && forall k | 0 <= k < i :: !HostOnly(secrets[k])
  }

  predicate TopRated(secrets: seq<Secret>, repository: string, i: nat) {
    && i < |secrets|
    && Rating(secrets[i], repository) > 0
    && forall k | 0 <= k < |secrets| :: Rating(secrets[k], repository) <= Rating(secrets[i], repository)
  }

  predicate HasExact(secrets: seq<Secret>, repository: string) {
    exists secret :: secret in secrets && Exact(secret, repository)
  }

  predicate HasRated(secrets: seq<Secret>, repository: string) {
    exists secret :: secret in secrets && Rating(secret, repository) > 0
  }

  predicate HasHostOnly(secrets: seq<Secret>) {
    exists secret :: secret in secrets && HostOnly(secret)
  }

  /**
   The choices allowed: the first exact match in list order; without one, any secret of the highest
   positive rating; without one, the first secret that names only the host; otherwise none.
   */
  predicate Selects(secrets: seq<Secret>, repository: string, choice: Option<nat>) {
    if HasExact(secrets, repository) then choice.Some? && FirstExact(secrets, repository, choice.value)
    else if HasRated(secrets, repository) then choice.Some? && TopRated(secrets, repository, choice.value)
    else if HasHostOnly(secrets) then choice.Some? && FirstHostOnly(secrets, choice.value)
    else choice.None?
  }

  lemma TopRatedSelected(secrets: seq<Secret>, repository: string, i: nat)
    requires !HasExact(secrets, repository) && TopRated(secrets, repository, i)
    ensures Selects(secrets, repository, Some(i))
  {
  }

  lemma FirstExactSelected(secrets: seq<Secret>, repository: string, i: nat)
    requires i < |secrets| && Exact(secrets[i], repository) && forall k | 0 <= k < i :: !Exact(secrets[k], repository)
    ensures Selects(secrets, repository, Some(i))
  {
  }

  lemma FirstHostOnlySelected(secrets: seq<Secret>, repository: string, i: nat)
    requires !HasExact(secrets, repository) && !HasRated(secrets, repository) && FirstHostOnly(secrets, i)
    ensures Selects(secrets, repository, Some(i))
  {
  }

  // ----- The best entry of a map, visited in any order -----

  predicate IsOrder(order: seq<nat>, keys: set<nat>) {
    && (forall i | i in order :: i in keys)
    && (forall i | i in keys :: i in order)
    && forall i, j | 0 <= i < j < |order| :: order[i] != order[j]
  }

  /** Index and count after the entries of `order` have been visited. */
  function BestOf(counts: map<nat, nat>, order: seq<nat>): (best: (nat, nat))
    requires forall i | i in order :: i in counts
  {
    if order == [] then (0, 0)
    else
      var last := order[|order| - 1];
      var best := BestOf(counts, order[..|order| - 1]);
      if counts[last] > best.1 then (last, counts[last]) else best
  }

  method FindBest(counts: map<nat, nat>) returns (bestIndex: nat, ghost order: seq<nat>)
    ensures IsOrder(order, counts.Keys)
    ensures bestIndex == BestOf(counts, order).0
    ensures counts != map[] && (forall i | i in counts :: counts[i] > 0) ==>
      bestIndex in counts && forall i | i in counts :: counts[i] <= counts[bestIndex]
  {
    var bestCount := 0;
    bestIndex := 0;
    order := [];
    var keys := counts.Keys;
    while keys != {}
      invariant keys <= counts.Keys
      invariant IsOrder(order, counts.Keys - keys)
      invariant (bestIndex, bestCount) == BestOf(counts, order)
      decreases |keys|
    {
      var i :| i in keys;
      keys := keys - {i};
      if counts[i] > bestCount {
        bestCount := counts[i];
        bestIndex := i;
      }
      assert (order + [i])[..|order|] == order;
      order := order + [i];
    }
    assert counts.Keys - keys == counts.Keys;
    if counts != map[] && forall i | i in counts :: counts[i] > 0 {
      var some :| some in counts;
      assert some in order;
      BestIsMaximal(counts, order);
    }
  }

  lemma {:induction false} BestIsMaximal(counts: map<nat, nat>, order: seq<nat>)
    requires order != []
    requires forall i | i in order :: i in counts && counts[i] > 0
    ensures var best := BestOf(counts, order);
      best.0 in order && counts[best.0] == best.1 && forall i | i in order :: counts[i] <= best.1
  {
    var before := order[..|order| - 1];
    assert order == before + [order[|order| - 1]];
    if before != [] {
      BestIsMaximal(counts, before);
    } else {
      assert BestOf(counts, before) == (0, 0);
    }
  }

  lemma {:induction false} FirstMaximumWins(counts: map<nat, nat>, order: seq<nat>)
    requires order != [] && order[0] in counts
    requires forall i | i in order :: i in counts && 0 < counts[i] <= counts[order[0]]
    ensures BestOf(counts, order) == (order[0], counts[order[0]])
  {
    var before := order[..|order| - 1];
    if before != [] {
      FirstMaximumWins(counts, before);
    } else {
      assert BestOf(counts, before) == (0, 0);
    }
  }

  lemma {:induction false} OrderOf(keys: set<nat>) returns (order: seq<nat>)
    ensures IsOrder(order, keys)
    decreases |keys|
  {
    if keys == {} {
      order := [];
    } else {
      var i :| i in keys;
      var rest := OrderOf(keys - {i});
      order := [i] + rest;
    }
  }

  /** Nothing but the iteration order decides between maxima: each of them wins in some order. */
  lemma AnyMaximumCanWin(counts: map<nat, nat>, i: nat) returns (order: seq<nat>)
    requires i in counts && forall k | k in counts :: 0 < counts[k] <= counts[i]
    ensures IsOrder(order, counts.Keys) && BestOf(counts, order).0 == i
  {
    var rest := OrderOf(counts.Keys - {i});
    order := [i] + rest;
    FirstMaximumWins(counts, order);
  }

  // ----- The ranking loop -----

  /** Rewrites the split annotation in place. */
  method TrimEach(names: seq<string>) returns (trimmed: seq<string>)
    ensures trimmed == TrimNames(names)
    ensures |trimmed| == |names| && forall k | 0 <= k < |names| :: Trimmed(names[k], trimmed[k])
  {
    hide Trimmed, TrimName;
    trimmed := names;
    for i := 0 to |names|
      invariant |trimmed| == |names|
      invariant forall k | 0 <= k < i :: trimmed[k] == TrimName(names[k])
      invariant forall k | i <= k < |names| :: trimmed[k] == names[k]
    {
      trimmed := trimmed[i := TrimName(trimmed[i])];
    }
    forall k | 0 <= k < |names| ensures Trimmed(names[k], trimmed[k]) {
      TrimNameIs(names[k], trimmed[k]);
    }
  }

  lemma {:induction false} OnlyWildcardsScore(names: seq<string>, repository: string)
    ensures BestScore(Filtered(names, Wildcard), repository) == BestScore(names, repository)
  {
    if names != [] {
      var last := names[|names| - 1];
      var before := names[..|names| - 1];
      OnlyWildcardsScore(before, repository);
      if Wildcard(last) {
        var kept := Filtered(before, Wildcard);
        assert (kept + [last])[..|kept|] == kept;
      }
    }
  }

  function Entered(potential: map<nat, nat>, index: nat, best: nat): map<nat, nat> {
    if best > 0 then potential[index := best] else potential
  }

  lemma BestScoreStep(names: seq<string>, k: nat, repository: string)
    requires k < |names|
    ensures BestScore(names[..0], repository) == 0
    ensures BestScore(names[..k + 1], repository)
      == var before, score := BestScore(names[..k], repository), Score(names[k], repository);
         if before < score then score else before
  {
    assert names[..k + 1][..k] == names[..k];
  }

  /** Enters the secret at `index` with its best wildcard, if one shares anything with the repository. */
  method AddMatches(potential: map<nat, nat>, index: nat, names: seq<string>, repository: string)
    returns (matches: map<nat, nat>)
    requires index !in potential
    ensures matches == Entered(potential, index, BestScore(names, repository))
  {
    hide CommonPrefix, Split, TrimSuffix, BestScore, Filtered;
    matches := potential;
    var parts := Split(repository, '/');
    var wildcards := Filter(names, Wildcard);
    if |wildcards| > 0 {
      BestScoreStep(wildcards, 0, repository);
    } else {
      NoNames(wildcards, repository);
    }
    for k := 0 to |wildcards|
      invariant matches == Entered(potential, index, BestScore(wildcards[..k], repository))
    {
      assert wildcards[k] in wildcards;
      var i := Intersection(parts, Split(TrimSuffix(wildcards[k], "*"), '/'));
      assert i == Score(wildcards[k], repository);
      BestScoreStep(wildcards, k, repository);
      if i > 0 && (if index in matches then matches[index] else 0) < i {
        matches := matches[index := i];
      }
    }
    assert wildcards[..|wildcards|] == wildcards;
    OnlyWildcardsScore(names, repository);
  }

  lemma NoNames(names: seq<string>, repository: string)
    requires names == []
    ensures BestScore(names[..0], repository) == 0
  {
  }

  ghost predicate Recorded(potential: map<nat, nat>, secrets: seq<Secret>, repository: string, n: nat)
    requires n <= |secrets|
  {
    && (forall k :: k in potential <==> 0 <= k < n && Rating(secrets[k], repository) > 0)
    && forall k | k in potential :: potential[k] == Rating(secrets[k], repository)
  }

  lemma BestIsTopRated(potential: map<nat, nat>, secrets: seq<Secret>, repository: string, best: nat)
    requires Recorded(potential, secrets, repository, |secrets|)
    requires best in potential && forall i | i in potential :: potential[i] <= potential[best]
    ensures TopRated(secrets, repository, best)
  {
    hide Rating;
  }

  lemma RecordedArePositive(potential: map<nat, nat>, secrets: seq<Secret>, repository: string)
    requires Recorded(potential, secrets, repository, |secrets|)
    ensures forall i | i in potential :: potential[i] > 0
  {
    hide Rating;
  }

  lemma NotYetRecorded(potential: map<nat, nat>, secrets: seq<Secret>, repository: string, n: nat)
    requires n <= |secrets| && Recorded(potential, secrets, repository, n)
    ensures n !in potential
  {
  }

  lemma EntryRecorded(potential: map<nat, nat>, secrets: seq<Secret>, repository: string, n: nat)
    requires n < |secrets| && Recorded(potential, secrets, repository, n)
    ensures Recorded(Entered(potential, n, Rating(secrets[n], repository)), secrets, repository, n + 1)
  {
  }

  lemma RatingOf(secret: Secret, repository: string)
    ensures HostOnly(secret) ==> Rating(secret, repository) == 0 && !Exact(secret, repository)
    ensures !HostOnly(secret) ==> Rating(secret, repository) == BestScore(Names(secret), repository)
  {
  }

  lemma NothingRecordedYet(secrets: seq<Secret>, repository: string)
    ensures Recorded(map[], secrets, repository, 0)
  {
  }

  lemma NothingRecorded(potential: map<nat, nat>, secrets: seq<Secret>, repository: string)
    requires |potential| == 0 && Recorded(potential, secrets, repository, |secrets|)
    ensures !HasRated(secrets, repository)
  {
  }

  method Rank(secrets: seq<Secret>, repository: string) returns (choice: Option<nat>)
    ensures Selects(secrets, repository, choice)
  {
    hide Selects, BestScore, Split, TrimNames, Trimmed, TrimName, BestOf, IsOrder, TopRated, FirstHostOnly, Recorded,
        Rating, HasRated, HasHostOnly, HasExact;
    var hostOnly: seq<nat> := [];
    var potential: map<nat, nat> := map[];
    NothingRecordedYet(secrets, repository);
    for index := 0 to |secrets|
      invariant forall k | 0 <= k < index :: !Exact(secrets[k], repository)
      invariant if hostOnly == [] then forall k | 0 <= k < index :: !HostOnly(secrets[k])
        else FirstHostOnly(secrets, hostOnly[0])
      invariant Recorded(potential, secrets, repository, index)
    {
      var secret := secrets[index];
      RatingOf(secret, repository);
      EntryRecorded(potential, secrets, repository, index);
      if HostOnly(secret) {
        if |hostOnly| == 0 {
          IsFirstHostOnly(secrets, index);
        }
        hostOnly := hostOnly + [index];
        continue;
      }
      var names := TrimEach(Split(secret.repositories.value, ','));
      if repository in names {
        FirstExactSelected(secrets, repository, index);
        return Some(index);
      }
      NotYetRecorded(potential, secrets, repository, index);
      potential := AddMatches(potential, index, names, repository);
    }
    NoneExact(secrets, repository);
    if |potential| == 0 {
      NothingRecorded(potential, secrets, repository);
      if |hostOnly| == 0 {
        NothingSelected(secrets, repository);
        return None;
      }
      FirstHostOnlySelected(secrets, repository, hostOnly[0]);
      return Some(hostOnly[0]);
    }
    var best, order := FindBest(potential);
    RecordedArePositive(potential, secrets, repository);
    BestIsTopRated(potential, secrets, repository, best);
    TopRatedSelected(secrets, repository, best);
    choice := Some(best);
  }

  lemma NothingSelected(secrets: seq<Secret>, repository: string)
    requires !HasExact(secrets, repository) && !HasRated(secrets, repository)
    requires forall k | 0 <= k < |secrets| :: !HostOnly(secrets[k])
    ensures Selects(secrets, repository, None)
  {
  }

  lemma NoneExact(secrets: seq<Secret>, repository: string)
    requires forall k | 0 <= k < |secrets| :: !Exact(secrets[k], repository)
    ensures !HasExact(secrets, repository)
  {
  }

  lemma IsFirstHostOnly(secrets: seq<Secret>, i: nat)
    requires i < |secrets| && HostOnly(secrets[i]) && forall k | 0 <= k < i :: !HostOnly(secrets[k])
    ensures FirstHostOnly(secrets, i)
  {
  }

  // ----- Where the choice is fixed, and where the iteration order of the map shows -----

  predicate Tied(secrets: seq<Secret>, repository: string) {
    exists i: nat, k: nat | i < k < |secrets| :: TopRated(secrets, repository, i) && TopRated(secrets, repository, k)
  }

  lemma ChoiceUnique(secrets: seq<Secret>, repository: string, c: Option<nat>, d: Option<nat>)
    requires Selects(secrets, repository, c) && Selects(secrets, repository, d)
    requires HasExact(secrets, repository) || !Tied(secrets, repository)
    ensures c == d
  {
  }

  lemma TieLeavesTwo(secrets: seq<Secret>, repository: string) returns (i: nat, k: nat)
    requires !HasExact(secrets, repository) && Tied(secrets, repository)
    ensures i != k && Selects(secrets, repository, Some(i)) && Selects(secrets, repository, Some(k))
  {
    i, k :| i < k < |secrets| && TopRated(secrets, repository, i) && TopRated(secrets, repository, k);
    TopRatedSelected(secrets, repository, i);
    TopRatedSelected(secrets, repository, k);
  }

  /** The choice depends on nothing but the list exactly when an exact match exists or the top rating is held once. */
  lemma DeterminedIffNoTie(secrets: seq<Secret>, repository: string)
    ensures (forall c, d :: Selects(secrets, repository, c) && Selects(secrets, repository, d) ==> c == d)
      <==> HasExact(secrets, repository) || !Tied(secrets, repository)
  {
    hide Selects, HasExact, Tied;
    if !HasExact(secrets, repository) && Tied(secrets, repository) {
      var i, k := TieLeavesTwo(secrets, repository);
      assert Some(i) != Some(k);
    } else {
      forall c, d | Selects(secrets, repository, c) && Selects(secrets, repository, d) ensures c == d {
        ChoiceUnique(secrets, repository, c, d);
      }
    }
  }

  // ----- Wildcards that cover the repository -----

  /** The directories, then everything that begins with the stem. */
  function Pattern(dirs: seq<string>, stem: string): string {
    Join(dirs + [stem + "*"], '/')
  }

  predicate PathParts(parts: seq<string>) {
    forall part | part in parts :: '/' !in part
  }

  /** Everything below the directories whose name begins with the stem. */
  predicate Covers(dirs: seq<string>, stem: string, parts: seq<string>) {
    |dirs| < |parts| && dirs <= parts && stem <= parts[|dirs|]
  }

  lemma {:induction false} JoinEnd(parts: seq<string>, tail: string)
    requires |parts| >= 1
    ensures Join(parts[|parts| - 1 := parts[|parts| - 1] + tail], '/') == Join(parts, '/') + tail
    decreases |parts|
  {
    var longer := parts[|parts| - 1 := parts[|parts| - 1] + tail];
    if |parts| > 1 {
      JoinEnd(parts[1..], tail);
      assert longer[1..] == parts[1..][|parts| - 2 := parts[|parts| - 1] + tail];
    }
  }

  lemma PatternTrimmed(dirs: seq<string>, stem: string)
    ensures Wildcard(Pattern(dirs, stem)) && TrimSuffix(Pattern(dirs, stem), "*") == Join(dirs + [stem], '/')
  {
    var all := dirs + [stem];
    JoinEnd(all, "*");
    assert all[|all| - 1 := stem + "*"] == dirs + [stem + "*"];
    StarTrimmed(Join(all, '/'));
  }

  lemma StarTrimmed(base: string)
    ensures Wildcard(base + "*") && TrimSuffix(base + "*", "*") == base
  {
  }

  lemma PatternScore(dirs: seq<string>, stem: string, parts: seq<string>)
    requires |parts| >= 1 && PathParts(parts) && PathParts(dirs) && '/' !in stem
    ensures Score(Pattern(dirs, stem), Join(parts, '/')) == CommonPrefix(parts, dirs + [stem])
  {
    PatternTrimmed(dirs, stem);
    hide Pattern, TrimSuffix, Wildcard, Join;
    SplitJoin(dirs + [stem], '/');
    SplitJoin(parts, '/');
  }

  /** A covering wildcard scores its depth, and one more when its stem is a whole part. */
  lemma CoveringScore(dirs: seq<string>, stem: string, parts: seq<string>)
    requires PathParts(parts) && PathParts(dirs) && Covers(dirs, stem, parts)
    ensures Score(Pattern(dirs, stem), Join(parts, '/')) == |dirs| + if stem == parts[|dirs|] then 1 else 0
  {
    assert parts[|dirs|] in parts;
    assert '/' !in stem;
    PatternScore(dirs, stem, parts);
    var score := |dirs| + if stem == parts[|dirs|] then 1 else 0;
    assert parts[..|dirs|] == dirs == (dirs + [stem])[..|dirs|];
    assert parts[..score] == (dirs + [stem])[..score];
    CommonPrefixIs(parts, dirs + [stem], score);
  }

  /**
   Of two wildcards that cover the repository the one with more directories scores strictly higher, except
   when it has just one more, which only the stem of the other names as a whole part.
   */
  lemma DeeperScoresHigherIff(
    dirs: seq<string>, stem: string, deeper: seq<string>, stem': string, parts: seq<string>)
    requires PathParts(parts) && PathParts(dirs) && PathParts(deeper)
    requires Covers(dirs, stem, parts) && Covers(deeper, stem', parts) && |dirs| < |deeper|
    ensures Score(Pattern(dirs, stem), Join(parts, '/')) < Score(Pattern(deeper, stem'), Join(parts, '/'))
      <==> !(|deeper| == |dirs| + 1 && stem == parts[|dirs|] && stem' != parts[|deeper|])
  {
    CoveringScore(dirs, stem, parts);
    CoveringScore(deeper, stem', parts);
  }

  /** The exception at work: both wildcards cover org/repo/x, and the deeper one does not score higher. */
  lemma DeeperCanTie()
    ensures Score("org/repo*", "org/repo/x") == Score("org/repo/*", "org/repo/x") == 2
    ensures Covers(["org"], "repo", ["org", "repo", "x"]) && Covers(["org", "repo"], "", ["org", "repo", "x"])
  {
    var parts := ["org", "repo", "x"];
    TieNames();
    hide Score, Join, Pattern;
    CoveringScore(["org"], "repo", parts);
    CoveringScore(["org", "repo"], "", parts);
  }

  lemma TieNames()
    ensures Join(["org", "repo", "x"], '/') == "org/repo/x"
    ensures Pattern(["org"], "repo") == "org/repo*" && Pattern(["org", "repo"], "") == "org/repo/*"
  {
    assert ["org", "repo", "x"][1..] == ["repo", "x"] && ["repo", "x"][1..] == ["x"];
    assert "repo" + "*" == "repo*" && "" + "*" == "*";
    assert ["org"] + ["repo*"] == ["org", "repo*"] && ["org", "repo*"][1..] == ["repo*"];
    assert ["org", "repo"] + ["*"] == ["org", "repo", "*"];
    assert ["org", "repo", "*"][1..] == ["repo", "*"] && ["repo", "*"][1..] == ["*"];
    assert Join(["repo", "*"], '/') == "repo/*";
  }

  /** Among wildcards with a whole star that cover the repository, a deeper one scores strictly higher. */
  lemma DeeperScoresHigher(dirs: seq<string>, deeper: seq<string>, parts: seq<string>)
    requires PathParts(parts) && PathParts(dirs) && PathParts(deeper) && "" !in parts
    requires Covers(dirs, "", parts) && Covers(deeper, "", parts) && |dirs| < |deeper|
    ensures Score(Pattern(dirs, ""), Join(parts, '/')) < Score(Pattern(deeper, ""), Join(parts, '/'))
  {
    DeeperScoresHigherIff(dirs, "", deeper, "", parts);
    assert parts[|dirs|] in parts;
  }

  /**
   A score reads as coverage exactly when it reaches the number of directories and the repository has a
   part below them that begins with the stem.
   */
  lemma CoversIffFullScore(dirs: seq<string>, stem: string, parts: seq<string>)
    requires |parts| >= 1 && PathParts(parts) && PathParts(dirs) && '/' !in stem
    ensures Covers(dirs, stem, parts)
      <==> |dirs| < |parts| && stem <= parts[|dirs|] && Score(Pattern(dirs, stem), Join(parts, '/')) >= |dirs|
    ensures stem == "" && "" !in parts ==>
      (Covers(dirs, "", parts) <==> |dirs| < |parts| && Score(Pattern(dirs, ""), Join(parts, '/')) == |dirs|)
  {
    PatternScore(dirs, stem, parts);
    PrefixReachesDirs(dirs, stem, parts);
    if Covers(dirs, stem, parts) {
      CoveringScore(dirs, stem, parts);
      assert parts[|dirs|] in parts;
    }
  }

  lemma PrefixReachesDirs(dirs: seq<string>, stem: string, parts: seq<string>)
    ensures CommonPrefix(parts, dirs + [stem]) >= |dirs| <==> dirs <= parts
  {
    var all := dirs + [stem];
    var score := CommonPrefix(parts, all);
    hide CommonPrefix;
    assert all[..|dirs|] == dirs;
    if score >= |dirs| {
      assert parts[..|dirs|] == parts[..score][..|dirs|] == all[..score][..|dirs|];
    }
  }

  /** A lone star matches nothing. */
  lemma LoneStarScoresNothing(parts: seq<string>)
    requires |parts| >= 1 && PathParts(parts) && parts[0] != ""
    ensures Score("*", Join(parts, '/')) == 0
  {
    CoveringScore([], "", parts);
    assert Pattern([], "") == "*";
  }

  /** A wildcard that does not cover the repository can win over one that does. */
  lemma NonCoveringCanWin(data: map<string, string>)
    ensures Score("a/*", "a/b/c") == 1 && Score("a/b/x/*", "a/b/c") == 2
    ensures var covering := Secret("covering", BasicAuth, data, Some("a/*"));
      var other := Secret("other", BasicAuth, data, Some("a/b/x/*"));
      forall c :: Selects([covering, other], "a/b/c", c) <==> c == Some(1)
  {
    ExampleScores();
    hide Score, Rating, Exact, HostOnly, TrimName;
    var covering := Secret("covering", BasicAuth, data, Some("a/*"));
    var other := Secret("other", BasicAuth, data, Some("a/b/x/*"));
    ExampleNames();
    OneName(covering, "a/*", "a/b/c");
    OneName(other, "a/b/x/*", "a/b/c");
    SecondWins(covering, other, "a/b/c");
  }

  lemma ExampleNames()
    ensures TrimName("a/*") == "a/*" && TrimName("a/b/x/*") == "a/b/x/*"
    ensures "a/b/c" != "a/*" && "a/b/c" != "a/b/x/*"
  {
  }

  lemma ExampleScores()
    ensures Score("a/*", "a/b/c") == 1 && Score("a/b/x/*", "a/b/c") == 2
  {
    hide Score, Join, Pattern;
    var parts := ["a", "b", "c"];
    NamesJoined();
    PatternScore(["a"], "", parts);
    PatternScore(["a", "b", "x"], "", parts);
    CommonPrefixIs(parts, ["a"] + [""], 1);
    CommonPrefixIs(parts, ["a", "b", "x"] + [""], 2);
  }

  lemma SecondWins(first: Secret, second: Secret, repository: string)
    requires !Exact(first, repository) && !Exact(second, repository)
    requires Rating(first, repository) < Rating(second, repository)
    ensures forall c :: Selects([first, second], repository, c) <==> c == Some(1)
  {
    hide Rating, Exact;
    assert [first, second][1] == second && [first, second][0] == first;
    assert TopRated([first, second], repository, 1);
    TopRatedSelected([first, second], repository, 1);
  }

  lemma NamesJoined()
    ensures Join(["a", "b", "c"], '/') == "a/b/c"
    ensures Pattern(["a"], "") == "a/*" && Pattern(["a", "b", "x"], "") == "a/b/x/*"
  {
    assert ["a", "b", "c"][1..] == ["b", "c"] && ["b", "c"][1..] == ["c"];
    assert "" + "*" == "*";
    assert ["a"] + ["*"] == ["a", "*"] && ["a", "*"][1..] == ["*"];
    assert ["a", "b", "x"] + ["*"] == ["a", "b", "x", "*"];
    assert ["a", "b", "x", "*"][1..] == ["b", "x", "*"] && ["b", "x", "*"][1..] == ["x", "*"]
        && ["x", "*"][1..] == ["*"];
    assert Join(["x", "*"], '/') == "x/*";
    assert Join(["b", "x", "*"], '/') == "b/x/*";
  }

  lemma OneName(secret: Secret, name: string, repository: string)
    requires secret.repositories == Some(name) && name != "" && ',' !in name && TrimName(name) == name
    requires repository != name
    ensures !HostOnly(secret) && !Exact(secret, repository) && Rating(secret, repository) == Score(name, repository)
  {
    SplitJoin([name], ',');
    assert Split(name, ',') == [name];
    assert Names(secret) == [name];
    assert [name][..0] == [];
    assert BestScore([], repository) == 0;
  }

  // ----- When the choice covers the repository -----

  /** The repository is below the wildcard's directories and begins there with its stem. */
  predicate WildcardCovers(name: string, repository: string) {
    Wildcard(name) &&
    var all := Split(TrimSuffix(name, "*"), '/');
    Covers(all[..|all| - 1], all[|all| - 1], Split(repository, '/'))
  }

  lemma WildcardCoversIsCovers(dirs: seq<string>, stem: string, parts: seq<string>)
    requires |parts| >= 1 && PathParts(parts) && PathParts(dirs) && '/' !in stem
    ensures WildcardCovers(Pattern(dirs, stem), Join(parts, '/')) <==> Covers(dirs, stem, parts)
  {
    PatternTrimmed(dirs, stem);
    hide Pattern, TrimSuffix, Wildcard, Join, Covers;
    var all := dirs + [stem];
    SplitJoin(all, '/');
    SplitJoin(parts, '/');
    assert all[..|all| - 1] == dirs;
  }

  /** Some secret of the list carries the name. */
  predicate Lists(secrets: seq<Secret>, name: string) {
    exists secret :: secret in secrets && !HostOnly(secret) && name in Names(secret)
  }

  /** Every name that gives the secret its rating covers the repository. */
  predicate RatedByCovering(secret: Secret, repository: string) {
    !HostOnly(secret) &&
    forall name | name in Names(secret) && Score(name, repository) == Rating(secret, repository) ::
      WildcardCovers(name, repository)
  }

  predicate CoveringChoice(secrets: seq<Secret>, repository: string, choice: Option<nat>) {
    choice.Some? && choice.value < |secrets| && !HostOnly(secrets[choice.value]) ==>
      RatedByCovering(secrets[choice.value], repository)
  }

  /** A covering wildcard of the list shares more leading parts with the repository than `name` does. */
  ghost predicate Beaten(secrets: seq<Secret>, repository: string, name: string) {
    exists m :: Lists(secrets, m) && WildcardCovers(m, repository) && Score(m, repository) > Score(name, repository)
  }

  /** The names that share something with the repository without covering it. */
  predicate Stray(secrets: seq<Secret>, repository: string, name: string) {
    Lists(secrets, name) && Score(name, repository) > 0 && !WildcardCovers(name, repository)
  }

  lemma {:induction false} SomeTopRated(secrets: seq<Secret>, repository: string) returns (i: nat)
    requires HasRated(secrets, repository)
    ensures TopRated(secrets, repository, i)
  {
    hide Rating;
    var n := |secrets| - 1;
    assert secrets == secrets[..n] + [secrets[n]];
    if HasRated(secrets[..n], repository) {
      i := SomeTopRated(secrets[..n], repository);
      assert forall k | 0 <= k < n :: secrets[k] == secrets[..n][k];
      if Rating(secrets[i], repository) < Rating(secrets[n], repository) {
        i := n;
      }
    } else {
      i := n;
      assert forall k | 0 <= k < n :: secrets[k] in secrets[..n];
    }
  }

  lemma ListedIsRated(secret: Secret, repository: string, name: string)
    requires !HostOnly(secret) && name in Names(secret)
    ensures Score(name, repository) <= Rating(secret, repository)
  {
    BestScoreIsHighest(Names(secret), repository);
  }

  lemma RatingIsAttained(secret: Secret, repository: string) returns (name: string)
    requires Rating(secret, repository) > 0
    ensures !HostOnly(secret) && name in Names(secret) && Score(name, repository) == Rating(secret, repository)
  {
    BestScoreIsHighest(Names(secret), repository);
    name :| name in Names(secret) && Score(name, repository) == BestScore(Names(secret), repository);
  }

  ghost predicate AllChoicesCovering(secrets: seq<Secret>, repository: string) {
    forall c :: Selects(secrets, repository, c) ==> CoveringChoice(secrets, repository, c)
  }

  lemma TopRatedIsCovering(secrets: seq<Secret>, repository: string, i: nat)
    requires !HasExact(secrets, repository) && AllChoicesCovering(secrets, repository)
    requires TopRated(secrets, repository, i)
    ensures RatedByCovering(secrets[i], repository)
  {
    hide Selects, HasExact, RatedByCovering;
    TopRatedSelected(secrets, repository, i);
    assert CoveringChoice(secrets, repository, Some(i));
  }

  lemma StrayIsBeaten(secrets: seq<Secret>, repository: string, name: string)
    requires !HasExact(secrets, repository) && AllChoicesCovering(secrets, repository)
    requires Stray(secrets, repository, name)
    ensures Beaten(secrets, repository, name)
  {
    var secret :| secret in secrets && !HostOnly(secret) && name in Names(secret);
    hide Score, WildcardCovers, Rating, Names, HostOnly, HasExact, AllChoicesCovering;
    ListedIsRated(secret, repository, name);
    var i := SomeTopRated(secrets, repository);
    TopRatedIsCovering(secrets, repository, i);
    var m := RatingIsAttained(secrets[i], repository);
    assert Lists(secrets, m) by {
      assert secrets[i] in secrets;
    }
    var k :| 0 <= k < |secrets| && secrets[k] == secret;
    if Rating(secret, repository) == Rating(secrets[i], repository) {
      TopRatedIsCovering(secrets, repository, k);
    }
  }

  lemma CoveringIfBeaten(secrets: seq<Secret>, repository: string, c: Option<nat>)
    requires !HasExact(secrets, repository) && Selects(secrets, repository, c)
    requires forall name | Stray(secrets, repository, name) :: Beaten(secrets, repository, name)
    ensures CoveringChoice(secrets, repository, c)
  {
    if c.Some? && !HostOnly(secrets[c.value]) {
      var secret := secrets[c.value];
      assert TopRated(secrets, repository, c.value);
      hide Score, WildcardCovers, Rating, Names, HostOnly;
      forall name | name in Names(secret) && Score(name, repository) == Rating(secret, repository)
        ensures WildcardCovers(name, repository)
      {
        if !WildcardCovers(name, repository) {
          assert secret in secrets && Stray(secrets, repository, name);
          var m :| Lists(secrets, m) && Score(m, repository) > Score(name, repository);
          var other :| other in secrets && !HostOnly(other) && m in Names(other);
          ListedIsRated(other, repository, m);
        }
      }
    }
  }

  /**
   Without an exact match, every possible choice of a rated secret is won by wildcards that cover the
   repository if and only if each wildcard that shares leading parts without covering it is beaten by a
   covering one that shares more.
   */
  lemma ChoiceCoversIff(secrets: seq<Secret>, repository: string)
    requires !HasExact(secrets, repository)
    ensures AllChoicesCovering(secrets, repository)
      <==> forall name | Stray(secrets, repository, name) :: Beaten(secrets, repository, name)
  {
    hide Selects, CoveringChoice, Stray, Beaten, HasExact;
    if AllChoicesCovering(secrets, repository) {
      forall name | Stray(secrets, repository, name) ensures Beaten(secrets, repository, name) {
        StrayIsBeaten(secrets, repository, name);
      }
    }
    if forall name | Stray(secrets, repository, name) :: Beaten(secrets, repository, name) {
      forall c | Selects(secrets, repository, c) ensures CoveringChoice(secrets, repository, c) {
        CoveringIfBeaten(secrets, repository, c);
      }
    }
  }

  /** The secret lists some wildcard that covers the repository. */
  predicate ListsCovering(secret: Secret, repository: string) {
    !HostOnly(secret) && exists name :: name in Names(secret) && WildcardCovers(name, repository)
  }

  ghost predicate AllChoicesListCovering(secrets: seq<Secret>, repository: string) {
    forall i: nat :: i < |secrets| && Selects(secrets, repository, Some(i)) && !HostOnly(secrets[i]) ==>
      ListsCovering(secrets[i], repository)
  }

  lemma RatedChoice(secrets: seq<Secret>, repository: string, i: nat)
    requires !HasExact(secrets, repository) && Selects(secrets, repository, Some(i)) && !HostOnly(secrets[i])
    ensures TopRated(secrets, repository, i)
  {
  }

  /** A secret that lists a covering wildcard is rated higher. */
  predicate Outrated(secrets: seq<Secret>, repository: string, secret: Secret) {
    exists other :: other in secrets && ListsCovering(other, repository)
      && Rating(other, repository) > Rating(secret, repository)
  }

  /**
   Without an exact match, every possible choice of a rated secret lists a wildcard that covers the
   repository if and only if each rated secret that lists none is outrated by one that does.
   */
  lemma ChoiceListsCoveringIff(secrets: seq<Secret>, repository: string)
    requires !HasExact(secrets, repository)
    ensures AllChoicesListCovering(secrets, repository)
      <==> forall secret | secret in secrets && Rating(secret, repository) > 0 && !ListsCovering(secret, repository) ::
             Outrated(secrets, repository, secret)
  {
    hide Rating, ListsCovering, HasExact, Exact, Selects, HostOnly;
    if AllChoicesListCovering(secrets, repository) {
      forall secret | secret in secrets && Rating(secret, repository) > 0 && !ListsCovering(secret, repository)
        ensures Outrated(secrets, repository, secret)
      {
        var i := SomeTopRated(secrets, repository);
        TopRatedListsCovering(secrets, repository, i);
        assert secrets[i] in secrets;
        var k :| 0 <= k < |secrets| && secrets[k] == secret;
        if Rating(secret, repository) == Rating(secrets[i], repository) {
          TopRatedListsCovering(secrets, repository, k);
        }
      }
    } else {
      var i: nat :| i < |secrets| && Selects(secrets, repository, Some(i)) && !HostOnly(secrets[i])
        && !ListsCovering(secrets[i], repository);
      RatedChoice(secrets, repository, i);
      assert secrets[i] in secrets;
    }
  }

  lemma TopRatedListsCovering(secrets: seq<Secret>, repository: string, i: nat)
    requires !HasExact(secrets, repository) && AllChoicesListCovering(secrets, repository)
    requires TopRated(secrets, repository, i)
    ensures ListsCovering(secrets[i], repository)
  {
    hide ListsCovering, HasExact, Selects;
    TopRatedSelected(secrets, repository, i);
    assert Some(i).Some?;
  }

  // ----- The choice in terms of the annotations listed -----

  /** The annotation lists the name, with or without one slash more at each end. */
  predicate ListsName(secret: Secret, core: string) {
    && secret.repositories.Some? && secret.repositories.value != ""
    && exists name :: name in Split(secret.repositories.value, ',') && Trimmed(name, core)
  }

  lemma NamesAre(secret: Secret, core: string)
    ensures ListsName(secret, core) <==> !HostOnly(secret) && core in Names(secret)
  {
    if !HostOnly(secret) {
      var written := Split(secret.repositories.value, ',');
      hide Split, Trimmed, TrimName;
      forall name ensures TrimName(name) == core <==> Trimmed(name, core) {
        TrimNameIs(name, core);
      }
      if core in Names(secret) {
        var i :| 0 <= i < |written| && TrimName(written[i]) == core;
        assert written[i] in written;
      }
      if name :| name in written && Trimmed(name, core) {
        var i :| 0 <= i < |written| && written[i] == name;
        assert Names(secret)[i] == core;
      }
    }
  }

  lemma ExactIff(secret: Secret, repository: string)
    ensures Exact(secret, repository) <==> ListsName(secret, repository)
  {
    NamesAre(secret, repository);
  }

  /** Leading path parts that a wildcard and the repository have in common. */
  function Shared(stem: string, repository: string): nat {
    CommonPrefix(Split(repository, '/'), Split(stem, '/'))
  }

  lemma WildcardScores(stem: string, repository: string)
    ensures Score(stem + "*", repository) == Shared(stem, repository)
  {
    assert (stem + "*")[..|stem|] == stem && (stem + "*")[|stem|..] == "*";
  }

  /** The rating is what the best wildcard listed shares with the repository. */
  lemma RatingIs(secret: Secret, repository: string)
    ensures forall stem | ListsName(secret, stem + "*") :: Shared(stem, repository) <= Rating(secret, repository)
    ensures Rating(secret, repository) > 0 ==>
      exists stem :: ListsName(secret, stem + "*") && Shared(stem, repository) == Rating(secret, repository)
  {
    hide ListsName, HostOnly, Names, Rating, Shared, Score;
    forall stem | ListsName(secret, stem + "*") ensures Shared(stem, repository) <= Rating(secret, repository) {
      NamesAre(secret, stem + "*");
      WildcardScores(stem, repository);
      ListedIsRated(secret, repository, stem + "*");
    }
    if Rating(secret, repository) > 0 {
      var name := RatingIsAttained(secret, repository);
      var stem := ScoredIsWildcard(name, repository);
      NamesAre(secret, name);
      WildcardScores(stem, repository);
    }
  }

  lemma ScoredIsWildcard(name: string, repository: string) returns (stem: string)
    requires Score(name, repository) > 0
    ensures name == stem + "*"
  {
    stem := TrimSuffix(name, "*");
  }

  predicate Usable(secret: Secret, kind: SecretType) {
    secret.secretType == kind && secret.data != map[]
  }

  /** Position i holds the first usable secret that lists the repository by name. */
  predicate FirstListing(listed: seq<Secret>, kind: SecretType, repository: string, i: nat) {
    && i < |listed| && Usable(listed[i], kind) && ListsName(listed[i], repository)
    && forall k | 0 <= k < i && Usable(listed[k], kind) :: !ListsName(listed[k], repository)
  }

  /** Position i holds the first usable secret without an annotation, or with an empty one. */
  predicate FirstUnmarked(listed: seq<Secret>, kind: SecretType, i: nat) {
    && i < |listed| && Usable(listed[i], kind) && listed[i].repositories in {None, Some("")}
    && forall k | 0 <= k < i && Usable(listed[k], kind) :: listed[k].repositories !in {None, Some("")}
  }

  /** No usable secret lists the repository by name. */
  predicate NotListed(listed: seq<Secret>, kind: SecretType, repository: string) {
    forall s | s in listed && Usable(s, kind) :: !ListsName(s, repository)
  }

  /** No usable secret lists a wildcard that shares anything with the repository. */
  ghost predicate NothingShared(listed: seq<Secret>, kind: SecretType, repository: string) {
    forall s, stem | s in listed && Usable(s, kind) && ListsName(s, stem + "*") :: Shared(stem, repository) == 0
  }

  /** ... without one, a usable secret that lists a wildcard sharing as much with the repository as any; without one,
      the first usable secret without annotation; without one, none. */
  ghost predicate ChosenUnlisted(listed: seq<Secret>, kind: SecretType, repository: string, secret: Option<Secret>) {
    && (forall s, stem | s in listed && Usable(s, kind) && ListsName(s, stem + "*") && Shared(stem, repository) > 0 ::
          secret.Some? && exists best ::
            ListsName(secret.value, best + "*") && Shared(best, repository) >= Shared(stem, repository))
    && (NothingShared(listed, kind, repository) ==>
          && (forall i: nat | FirstUnmarked(listed, kind, i) :: secret == Some(listed[i]))
          && (secret.None? <==> forall s | s in listed && Usable(s, kind) :: s.repositories !in {None, Some("")}))
  }

  /** What is chosen from the list as it was read: the first usable secret that lists the repository by name ... */
  ghost predicate Chosen(listed: seq<Secret>, kind: SecretType, repository: string, secret: Option<Secret>) {
    && (secret.Some? ==> secret.value in listed && Usable(secret.value, kind))
    && (forall i: nat | FirstListing(listed, kind, repository, i) :: secret == Some(listed[i]))
    && (NotListed(listed, kind, repository) ==> ChosenUnlisted(listed, kind, repository, secret))
  }

  ghost predicate Tests(test: Secret -> bool, kind: SecretType) {
    forall s :: test(s) <==> Usable(s, kind)
  }

  /** Where an element of the list is in the filtered list. */
  lemma KeptAt(listed: seq<Secret>, test: Secret -> bool, i: nat) returns (j: nat)
    requires i < |listed| && test(listed[i])
    ensures j < |Filtered(listed, test)| && Filtered(listed, test)[j] == listed[i]
    ensures forall k | 0 <= k < j :: Filtered(listed, test)[k] in listed[..i] && test(Filtered(listed, test)[k])
  {
    var before, after := Filtered(listed[..i], test), Filtered(listed[i + 1..], test);
    FilteredConcat(listed[..i + 1], listed[i + 1..], test);
    assert listed == listed[..i + 1] + listed[i + 1..];
    assert listed[..i + 1][..i] == listed[..i];
    assert Filtered(listed, test) == before + [listed[i]] + after;
    j := |before|;
  }

  lemma FirstListingIsExact(listed: seq<Secret>, kind: SecretType, test: Secret -> bool, repository: string, i: nat)
    returns (j: nat)
    requires Tests(test, kind) && FirstListing(listed, kind, repository, i)
    ensures FirstExact(Filtered(listed, test), repository, j) && Filtered(listed, test)[j] == listed[i]
  {
    j := KeptAt(listed, test, i);
    var secrets := Filtered(listed, test);
    hide Exact, ListsName;
    ExactIff(listed[i], repository);
    forall k | 0 <= k < j ensures !Exact(secrets[k], repository) {
      assert secrets[k] in listed[..i] && test(secrets[k]);
      var m :| 0 <= m < i && listed[..i][m] == secrets[k];
      assert listed[m] == secrets[k] && Usable(listed[m], kind);
      ExactIff(secrets[k], repository);
    }
  }

  lemma ExactIsSelected(secrets: seq<Secret>, repository: string, j: nat, choice: Option<nat>)
    requires FirstExact(secrets, repository, j) && Selects(secrets, repository, choice)
    ensures choice == Some(j)
  {
    hide Exact, HasRated, HasHostOnly, TopRated, FirstHostOnly;
    assert secrets[j] in secrets && HasExact(secrets, repository);
  }

  lemma FirstListingChosen(listed: seq<Secret>, kind: SecretType, test: Secret -> bool, repository: string, i: nat,
      choice: Option<nat>)
    requires Tests(test, kind) && FirstListing(listed, kind, repository, i)
    requires Selects(Filtered(listed, test), repository, choice)
    ensures choice.Some? && choice.value < |Filtered(listed, test)|
    ensures Filtered(listed, test)[choice.value] == listed[i]
  {
    hide Selects, FirstListing, Tests;
    var j := FirstListingIsExact(listed, kind, test, repository, i);
    ExactIsSelected(Filtered(listed, test), repository, j, choice);
  }

  lemma NotListedNotExact(listed: seq<Secret>, kind: SecretType, test: Secret -> bool, repository: string)
    requires Tests(test, kind)
    ensures NotListed(listed, kind, repository) <==> !HasExact(Filtered(listed, test), repository)
  {
    hide Exact, ListsName;
    forall s ensures Exact(s, repository) <==> ListsName(s, repository) {
      ExactIff(s, repository);
    }
  }

  lemma NothingSharedNotRated(listed: seq<Secret>, kind: SecretType, test: Secret -> bool, repository: string)
    requires Tests(test, kind)
    ensures NothingShared(listed, kind, repository) <==> !HasRated(Filtered(listed, test), repository)
  {
    hide Rating, ListsName, Shared;
    forall s
      ensures Rating(s, repository) == 0 <==> forall stem | ListsName(s, stem + "*") :: Shared(stem, repository) == 0
    {
      RatingIs(s, repository);
    }
  }

  lemma BestSharedChosen(listed: seq<Secret>, kind: SecretType, test: Secret -> bool, repository: string, s: Secret,
      stem: string, choice: Option<nat>)
    requires Tests(test, kind) && NotListed(listed, kind, repository)
    requires s in listed && Usable(s, kind) && ListsName(s, stem + "*") && Shared(stem, repository) > 0
    requires Selects(Filtered(listed, test), repository, choice)
    ensures choice.Some? && choice.value < |Filtered(listed, test)|
    ensures exists best ::
      && ListsName(Filtered(listed, test)[choice.value], best + "*")
      && Shared(best, repository) >= Shared(stem, repository)
  {
    var secrets := Filtered(listed, test);
    NotListedNotExact(listed, kind, test, repository);
    hide Rating, ListsName, Shared, HasExact, HasHostOnly, FirstExact, FirstHostOnly;
    RatingIs(s, repository);
    assert s in secrets && HasRated(secrets, repository);
    RatingIs(secrets[choice.value], repository);
  }

  lemma FirstUnmarkedIsHostOnly(listed: seq<Secret>, kind: SecretType, test: Secret -> bool, i: nat) returns (j: nat)
    requires Tests(test, kind) && FirstUnmarked(listed, kind, i)
    ensures FirstHostOnly(Filtered(listed, test), j) && Filtered(listed, test)[j] == listed[i]
  {
    j := KeptAt(listed, test, i);
    var secrets := Filtered(listed, test);
    forall k | 0 <= k < j ensures !HostOnly(secrets[k]) {
      assert secrets[k] in listed[..i] && test(secrets[k]);
      var m :| 0 <= m < i && listed[..i][m] == secrets[k];
      assert listed[m] == secrets[k] && Usable(listed[m], kind);
      Unmarked(secrets[k]);
    }
    Unmarked(listed[i]);
  }

  lemma HostOnlyIsSelected(secrets: seq<Secret>, repository: string, j: nat, choice: Option<nat>)
    requires !HasExact(secrets, repository) && !HasRated(secrets, repository)
    requires FirstHostOnly(secrets, j) && Selects(secrets, repository, choice)
    ensures choice == Some(j)
  {
    hide HostOnly, HasRated, HasExact, TopRated, FirstExact;
    assert secrets[j] in secrets && HasHostOnly(secrets);
  }

  lemma FirstUnmarkedChosen(listed: seq<Secret>, kind: SecretType, test: Secret -> bool, repository: string, i: nat,
      choice: Option<nat>)
    requires Tests(test, kind) && NotListed(listed, kind, repository) && NothingShared(listed, kind, repository)
    requires FirstUnmarked(listed, kind, i) && Selects(Filtered(listed, test), repository, choice)
    ensures choice.Some? && choice.value < |Filtered(listed, test)|
    ensures Filtered(listed, test)[choice.value] == listed[i]
  {
    NotListedNotExact(listed, kind, test, repository);
    NothingSharedNotRated(listed, kind, test, repository);
    hide Selects, NotListed, NothingShared, HasExact, HasRated, FirstUnmarked, Tests;
    var j := FirstUnmarkedIsHostOnly(listed, kind, test, i);
    HostOnlyIsSelected(Filtered(listed, test), repository, j, choice);
  }

  lemma Unmarked(secret: Secret)
    ensures HostOnly(secret) <==> secret.repositories in {None, Some("")}
  {
  }

  lemma UnmarkedIffHostOnly(listed: seq<Secret>, kind: SecretType, test: Secret -> bool)
    requires Tests(test, kind)
    ensures HasHostOnly(Filtered(listed, test))
      <==> exists s :: s in listed && Usable(s, kind) && s.repositories in {None, Some("")}
  {
    var secrets := Filtered(listed, test);
    forall s | s in secrets && HostOnly(s)
      ensures s in listed && Usable(s, kind) && s.repositories in {None, Some("")}
    {
      Unmarked(s);
      assert test(s);
    }
    forall s | s in listed && Usable(s, kind) && s.repositories in {None, Some("")}
      ensures s in secrets && HostOnly(s)
    {
      Unmarked(s);
      assert test(s);
    }
  }

  lemma NoneIffNoHostOnly(secrets: seq<Secret>, repository: string, choice: Option<nat>)
    requires !HasExact(secrets, repository) && !HasRated(secrets, repository) && Selects(secrets, repository, choice)
    ensures choice.None? <==> !HasHostOnly(secrets)
  {
  }

  lemma UnmarkedIffNoneChosen(listed: seq<Secret>, kind: SecretType, test: Secret -> bool, repository: string,
      choice: Option<nat>)
    requires Tests(test, kind) && NotListed(listed, kind, repository) && NothingShared(listed, kind, repository)
    requires Selects(Filtered(listed, test), repository, choice)
    ensures choice.None? <==> forall s | s in listed && Usable(s, kind) :: s.repositories !in {None, Some("")}
  {
    NotListedNotExact(listed, kind, test, repository);
    NothingSharedNotRated(listed, kind, test, repository);
    UnmarkedIffHostOnly(listed, kind, test);
    hide NotListed, NothingShared, HasExact, HasRated, Selects, HasHostOnly, Tests, Usable;
    NoneIffNoHostOnly(Filtered(listed, test), repository, choice);
  }

  function Pick(secrets: seq<Secret>, choice: Option<nat>): Option<Secret>
    requires choice.Some? ==> choice.value < |secrets|
  {
    if choice.Some? then Some(secrets[choice.value]) else None
  }

  /** The secret at an allowed choice, or none. */
  ghost predicate Settled(secrets: seq<Secret>, repository: string, secret: Option<Secret>) {
    exists choice: Option<nat> ::
      && Selects(secrets, repository, choice) && (choice.Some? ==> choice.value < |secrets|)
      && secret == Pick(secrets, choice)
  }

  lemma SelectedIsUsable(listed: seq<Secret>, kind: SecretType, test: Secret -> bool, repository: string,
      choice: Option<nat>)
    requires Tests(test, kind) && Selects(Filtered(listed, test), repository, choice)
    ensures choice.Some? ==>
      && choice.value < |Filtered(listed, test)|
      && Filtered(listed, test)[choice.value] in listed && Usable(Filtered(listed, test)[choice.value], kind)
  {
    hide Exact, HasExact, Rating, HasRated, HostOnly, HasHostOnly;
    var secrets := Filtered(listed, test);
    if choice.Some? {
      assert choice.value < |secrets|;
      assert secrets[choice.value] in secrets;
    }
  }

  lemma UnlistedIsChosen(listed: seq<Secret>, kind: SecretType, test: Secret -> bool, repository: string,
      choice: Option<nat>)
    requires Tests(test, kind) && Selects(Filtered(listed, test), repository, choice)
    requires NotListed(listed, kind, repository)
    requires choice.Some? ==> choice.value < |Filtered(listed, test)|
    ensures ChosenUnlisted(listed, kind, repository, Pick(Filtered(listed, test), choice))
  {
    var secret := Pick(Filtered(listed, test), choice);
    hide Selects, FirstListing, FirstUnmarked, NotListed, NothingShared, ListsName, Shared, Tests, Usable;
    forall s, stem | s in listed && Usable(s, kind) && ListsName(s, stem + "*") && Shared(stem, repository) > 0
      ensures secret.Some? && exists best ::
        ListsName(secret.value, best + "*") && Shared(best, repository) >= Shared(stem, repository)
    {
      BestSharedChosen(listed, kind, test, repository, s, stem, choice);
    }
    if NothingShared(listed, kind, repository) {
      UnmarkedIffNoneChosen(listed, kind, test, repository, choice);
      forall i: nat | FirstUnmarked(listed, kind, i) ensures i < |listed| && secret == Some(listed[i]) {
        UnmarkedPosition(listed, kind, i);
        FirstUnmarkedChosen(listed, kind, test, repository, i, choice);
      }
    }
  }

  lemma UnmarkedPosition(listed: seq<Secret>, kind: SecretType, i: nat)
    requires FirstUnmarked(listed, kind, i)
    ensures i < |listed|
  {
  }

  lemma ListedPosition(listed: seq<Secret>, kind: SecretType, repository: string, i: nat)
    requires FirstListing(listed, kind, repository, i)
    ensures i < |listed|
  {
  }

  /** The choice from the filtered list is the one described on the list as it was read. */
  lemma SelectedIsChosen(listed: seq<Secret>, kind: SecretType, test: Secret -> bool, repository: string,
      choice: Option<nat>)
    requires Tests(test, kind) && Selects(Filtered(listed, test), repository, choice)
    ensures choice.Some? ==> choice.value < |Filtered(listed, test)|
    ensures Chosen(listed, kind, repository, Pick(Filtered(listed, test), choice))
    ensures Settled(Filtered(listed, test), repository, Pick(Filtered(listed, test), choice))
  {
    SelectedIsUsable(listed, kind, test, repository, choice);
    var secret := Pick(Filtered(listed, test), choice);
    hide Selects, FirstListing, NotListed, ChosenUnlisted, ListsName, Tests, Usable;
    forall i: nat | FirstListing(listed, kind, repository, i) ensures i < |listed| && secret == Some(listed[i]) {
      FirstListingChosen(listed, kind, test, repository, i, choice);
      ListedPosition(listed, kind, repository, i);
    }
    if NotListed(listed, kind, repository) {
      UnlistedIsChosen(listed, kind, test, repository, choice);
    }
  }

  // ----- The two callers -----

  datatype LookupError = ListFailed | NoneForHost | NoneForComponent

  predicate UsableForScm(secret: Secret) {
    secret.secretType == BasicAuth && |secret.data| > 0
  }

  predicate UsableForRpm(secret: Secret) {
    secret.secretType == Opaque && |secret.data| > 0
  }

  lemma TestsAre()
    ensures Tests(UsableForScm, BasicAuth) && Tests(UsableForRpm, Opaque)
  {
  }

  lemma NoneUsable(listed: seq<Secret>, kind: SecretType, test: Secret -> bool, repository: string)
    requires Tests(test, kind)
    ensures Filtered(listed, test) == [] <==> forall s | s in listed :: !Usable(s, kind)
    ensures Filtered(listed, test) == [] ==>
      Chosen(listed, kind, repository, None) && Settled(Filtered(listed, test), repository, None)
  {
    if Filtered(listed, test) == [] {
      assert Selects([], repository, None) && Pick([], None) == None;
      forall s | s in listed ensures !Usable(s, kind) {
        assert !test(s);
      }
    } else {
      assert Filtered(listed, test)[0] in listed;
    }
  }

  /** lookupSecret of GitLab and of Forgejo; `listed` is None when the List call fails. */
  method LookupSecret(listed: Option<seq<Secret>>, repository: string) returns (r: Result<Secret, LookupError>)
    ensures r == Failure(ListFailed) <==> listed.None?
    ensures listed.Some? ==>
      && Chosen(listed.value, BasicAuth, repository, if r.Success? then Some(r.value) else None)
      && Settled(Filtered(listed.value, UsableForScm), repository, if r.Success? then Some(r.value) else None)
      && (r == Failure(NoneForHost) <==> forall s | s in listed.value :: !Usable(s, BasicAuth))
  {
    if listed.None? {
      return Failure(ListFailed);
    }
    TestsAre();
    NoneUsable(listed.value, BasicAuth, UsableForScm, repository);
    hide Chosen, ChosenUnlisted, Settled, Selects, Tests, Usable, UsableForScm;
    var secrets := Filter(listed.value, UsableForScm);
    if |secrets| == 0 {
      return Failure(NoneForHost);
    }
    var choice := Rank(secrets, repository);
    SelectedIsChosen(listed.value, BasicAuth, UsableForScm, repository, choice);
    if choice.None? {
      return Failure(NoneForComponent);
    }
    r := Success(secrets[choice.value]);
  }

  datatype KeyError = NoViableSecret | Incomplete(secret: string)

  function Field(secret: Secret, key: string): string {
    if key in secret.data then secret.data[key] else ""
  }

  /** The two values of a secret, or why there are none: no secret at all is told apart from a bad one. */
  function ActivationKey(secret: Option<Secret>): (r: Result<(string, string), KeyError>)
    ensures KeyFrom(secret, r)
  {
    if secret.None? then Failure(NoViableSecret)
    else
      var key, org := Field(secret.value, "activationkey"), Field(secret.value, "org");
      if key == "" || org == "" then Failure(Incomplete(secret.value.name)) else Success((key, org))
  }

  predicate Holds(secret: Secret, key: string, value: string) {
    key in secret.data && secret.data[key] == value
  }

  /** The pair is what the secret holds under the two keys, neither missing nor empty; the errors say which. */
  ghost predicate KeyFrom(secret: Option<Secret>, r: Result<(string, string), KeyError>) {
    match r
    case Success((key, org)) =>
      && key != "" && org != "" && secret.Some?
      && Holds(secret.value, "activationkey", key) && Holds(secret.value, "org", org)
    case Failure(NoViableSecret) => secret.None?
    case Failure(Incomplete(name)) =>
      && secret.Some? && name == secret.value.name
      && forall key, org | Holds(secret.value, "activationkey", key) && Holds(secret.value, "org", org) ::
        key == "" || org == ""
  }

  /** The key comes from the secret chosen, or from the fallback when none is. */
  ghost predicate KeyChosen(fallback: Option<Secret>, listed: seq<Secret>, repository: string,
      r: Result<(string, string), KeyError>)
  {
    exists secret ::
      && Chosen(listed, Opaque, repository, secret) && Settled(Filtered(listed, UsableForRpm), repository, secret)
      && KeyFrom(if secret.Some? then secret else fallback, r)
  }

  lemma KeyFromChosen(fallback: Option<Secret>, listed: seq<Secret>, repository: string, secret: Option<Secret>)
    requires Chosen(listed, Opaque, repository, secret)
    requires Settled(Filtered(listed, UsableForRpm), repository, secret)
    ensures KeyChosen(fallback, listed, repository, ActivationKey(if secret.Some? then secret else fallback))
  {
    hide Chosen, Settled, KeyFrom;
  }

  /** `fallback`: the namespace's default secret, None when it cannot be read. */
  method GetRPMActivationKey(fallback: Option<Secret>, listed: Option<seq<Secret>>, repository: string)
    returns (r: Result<(string, string), KeyError>)
    ensures listed.None? ==> KeyFrom(fallback, r)
    ensures listed.Some? ==> KeyChosen(fallback, listed.value, repository, r)
  {
    if listed.None? {
      return ActivationKey(fallback);
    }
    TestsAre();
    NoneUsable(listed.value, Opaque, UsableForRpm, repository);
    hide Chosen, ChosenUnlisted, Settled, Selects, Tests, Usable, UsableForRpm, ActivationKey, KeyFrom, KeyChosen;
    var secrets := Filter(listed.value, UsableForRpm);
    if |secrets| == 0 {
      KeyFromChosen(fallback, listed.value, repository, None);
      return ActivationKey(fallback);
    }
    var choice := Rank(secrets, repository);
    SelectedIsChosen(listed.value, Opaque, UsableForRpm, repository, choice);
    if choice.None? {
      KeyFromChosen(fallback, listed.value, repository, None);
      return ActivationKey(fallback);
    }
    KeyFromChosen(fallback, listed.value, repository, Some(secrets[choice.value]));
    r := ActivationKey(Some(secrets[choice.value]));
  }
}
