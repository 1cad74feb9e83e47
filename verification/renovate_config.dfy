/**
 The rendered Renovate configuration: GetRenovateBaseConfig in internal/component/base/base.go and
 GetRenovateConfig of the three platforms. The base is one map behind a package variable; every caller
 gets that map, writes its own values into it and renders it.
 */
module RenovateConfig {
  import opened Wrappers

  type HostRule = map<string, string>

  datatype Value =
    | Loaded(json: string)
    | Text(text: string)
    | HostRules(rules: seq<HostRule>)
    | Repositories(baseBranchPatterns: seq<string>, repository: string)

  /** The keys the code writes, and all others. */
  datatype Key =
    | HostRulesKey | PlatformKey | EndpointKey | UsernameKey | GitAuthorKey | RepositoriesKey
    | Other(name: string)

  type Config = map<Key, Value>

  /** What reading the config map and its two documents gives; both documents are JSON objects. */
  datatype Source =
    | Unavailable
    | BadRenovateJson
    | BadSelfHostedJson
    | Documents(renovate: Config, selfHosted: Config)

  datatype Platform = GitHub | GitLab | Forgejo

  datatype Component = Component(platform: string, scheme: string, host: string, repository: string)

  /**
   One call of GetRenovateConfig with what its surroundings answer. `rules`: the host rules of the
   registry secret, None without a secret or when it cannot be read. `identity`: slug and user id of the
   GitHub App, None when either cannot be had.
   */
  datatype Call = Call(
    on: Platform,
    component: Component,
    rules: Option<seq<HostRule>>,
    identity: Option<(string, string)>,
    branch: string,
    source: Source)

  datatype Error = NoBaseConfig(source: Source) | NoIdentity

  function Endpoint(on: Platform, component: Component): string {
    match on
    case GitHub => "https://api." + component.host + "/"
    case GitLab => "https://" + component.host + "/api/v4/"
    case Forgejo => component.scheme + "://" + component.host + "/api/v1/"
  }

  // ----- The history law -----

  const OVERRIDDEN := {PlatformKey, EndpointKey, UsernameKey, GitAuthorKey, RepositoriesKey}

  predicate BringsRules(call: Call) {
    call.rules.Some? && call.rules.value != []
  }

  predicate Identified(call: Call) {
    call.on.GitHub? ==> call.identity.Some?
  }

  /** The values that a call sets itself. */
  function Overrides(call: Call): (r: Config)
    requires Identified(call)
    ensures r.Keys == OVERRIDDEN
  {
    map[
      PlatformKey := Text(call.component.platform),
      EndpointKey := Text(Endpoint(call.on, call.component)),
      UsernameKey := Text(if call.on.GitHub? then call.identity.value.0 + "[bot]" else ""),
      GitAuthorKey := Text(
        if call.on.GitHub? then
          var (slug, id) := call.identity.value;
          slug + " <" + id + "+" + slug + "[bot]@users.noreply.github.com>"
        else ""),
      RepositoriesKey := Repositories([call.branch], call.component.repository)
    ]
  }

  /** The merged base of the first call that could read it. */
  function Base(history: seq<Call>): Option<Config> {
    if history == [] then None
    else
      var before := Base(history[..|history| - 1]);
      var source := history[|history| - 1].source;
      if before.Some? then before
      else if source.Documents? then Some(source.renovate + source.selfHosted)
      else None
  }

  /** The last non-empty host rules written into the base, by whatever call. */
  function LastRules(history: seq<Call>): Option<seq<HostRule>> {
    if history == [] then None
    else
      var last := history[|history| - 1];
      if BringsRules(last) && Base(history).Some? then last.rules else LastRules(history[..|history| - 1])
  }

  function WithRules(config: Config, rules: Option<seq<HostRule>>): Config {
    if rules.Some? then config[HostRulesKey := HostRules(rules.value)] else config
  }

  predicate HoldsRules(config: Config, rules: seq<HostRule>) {
    HostRulesKey in config && config[HostRulesKey] == HostRules(rules)
  }

  /** What the last call of a history returns. */
  function Rendered(history: seq<Call>): Result<Config, Error>
    requires history != []
  {
    var call := history[|history| - 1];
    if Base(history).None? then Failure(NoBaseConfig(call.source))
    else if !Identified(call) then Failure(NoIdentity)
    else Success(WithRules(Base(history).value, LastRules(history)) + Overrides(call))
  }

  /** The history functions, one call at a time. */
  lemma Unfold(history: seq<Call>, call: Call)
    ensures Base(history + [call]) ==
      if Base(history).None? && call.source.Documents? then Some(call.source.renovate + call.source.selfHosted)
      else Base(history)
    ensures LastRules(history + [call]) ==
      if BringsRules(call) && Base(history + [call]).Some? then call.rules else LastRules(history)
    ensures Base(history).None? ==> LastRules(history).None?
  {
  }

  lemma {:induction false} NoRulesWithoutBase(history: seq<Call>)
    ensures Base(history).None? ==> LastRules(history).None?
  {
    if history != [] {
      NoRulesWithoutBase(history[..|history| - 1]);
    }
  }

  ghost predicate SameElsewhere(a: Config, b: Config) {
    forall key :: key !in OVERRIDDEN ==> (key in a <==> key in b) && (key in a ==> a[key] == b[key])
  }

  /** Writing the five values into a map that differs at most there. */
  lemma OverridesWritten(entries: Config, config: Config, call: Call)
    requires Identified(call) && SameElsewhere(entries, config)
    ensures entries + Overrides(call) == config + Overrides(call)
  {
  }

  /** The two orders in which the platforms write. */
  lemma FiveWrites(config: Config, call: Call)
    requires Identified(call)
    ensures var o := Overrides(call);
      && config[GitAuthorKey := o[GitAuthorKey]][UsernameKey := o[UsernameKey]][PlatformKey := o[PlatformKey]]
         [EndpointKey := o[EndpointKey]][RepositoriesKey := o[RepositoriesKey]] == config + o
      && config[PlatformKey := o[PlatformKey]][EndpointKey := o[EndpointKey]][UsernameKey := o[UsernameKey]]
         [GitAuthorKey := o[GitAuthorKey]][RepositoriesKey := o[RepositoriesKey]] == config + o
  {
  }

  lemma WrittenIsSameElsewhere(config: Config, call: Call)
    requires Identified(call)
    ensures SameElsewhere(config + Overrides(call), config)
  {
  }

  // ----- The code -----

  /** A Go map: shared by reference. */
  class SharedMap {
    var entries: Config

    constructor (entries: Config)
      ensures this.entries == entries
    {
      this.entries := entries;
    }

    method Put(key: Key, value: Value)
      modifies this
      ensures entries == old(entries)[key := value]
    {
      entries := entries[key := value];
    }
  }

  class Process {
    var renovateBaseConfig: SharedMap?
    ghost var history: seq<Call>

    /** Outside the keys every successful call overwrites, the shared map is the merged base with the last rules. */
    ghost predicate Valid()
      reads this, renovateBaseConfig
    {
      && (renovateBaseConfig == null <==> Base(history).None?)
      && (renovateBaseConfig != null ==>
            SameElsewhere(renovateBaseConfig.entries, WithRules(Base(history).value, LastRules(history))))
    }

    constructor ()
      ensures Valid() && history == []
    {
      renovateBaseConfig := null;
      history := [];
    }

    /** Every caller gets the one map; a failed load leaves nothing behind. */
    method GetRenovateBaseConfig(source: Source) returns (r: Result<SharedMap, Error>)
      modifies this`renovateBaseConfig
      ensures old(renovateBaseConfig) != null ==>
        r == Success(old(renovateBaseConfig)) && renovateBaseConfig == old(renovateBaseConfig)
      ensures old(renovateBaseConfig) == null && !source.Documents? ==>
        r == Failure(NoBaseConfig(source)) && renovateBaseConfig == null
      ensures old(renovateBaseConfig) == null && source.Documents? ==>
        && r.Success? && fresh(r.value) && renovateBaseConfig == r.value
        && r.value.entries == source.renovate + source.selfHosted
    {
      if renovateBaseConfig != null {
        return Success(renovateBaseConfig);
      }
      if !source.Documents? {
        return Failure(NoBaseConfig(source));
      }
      var config := new SharedMap(source.renovate);
      Merge(config, source.selfHosted);
      renovateBaseConfig := config;
      return Success(config);
    }

    /** Key by key, in any order. */
    method Merge(config: SharedMap, selfHosted: Config)
      modifies config
      ensures config.entries == old(config.entries) + selfHosted
    {
      var keys := selfHosted.Keys;
      while keys != {}
        invariant keys <= selfHosted.Keys
        invariant forall key :: key in config.entries <==> key in old(config.entries) || key in selfHosted.Keys - keys
        invariant forall key | key in config.entries ::
          config.entries[key] == if key in selfHosted.Keys - keys then selfHosted[key] else old(config.entries)[key]
        decreases |keys|
      {
        var k :| k in keys;
        config.Put(k, selfHosted[k]);
        keys := keys - {k};
      }
      assert config.entries.Keys == (old(config.entries) + selfHosted).Keys;
    }

    method AddHostRules(baseConfig: SharedMap, rules: Option<seq<HostRule>>)
      modifies baseConfig
      ensures baseConfig.entries
        == WithRules(old(baseConfig.entries), if rules.Some? && rules.value != [] then rules else None)
    {
      if rules.Some? && |rules.value| > 0 {
        baseConfig.Put(HostRulesKey, HostRules(rules.value));
      }
    }

    /** GitHub: the identity is asked for after the host rules are in the shared map. */
    method GetGitHubConfig(call: Call) returns (r: Result<Config, Error>)
      requires Valid() && call.on.GitHub?
      modifies this, renovateBaseConfig
      ensures Valid() && history == old(history) + [call]
      ensures r == Rendered(history)
      ensures old(renovateBaseConfig) != null ==> renovateBaseConfig == old(renovateBaseConfig)
    {
      hide Base, LastRules, SameElsewhere, BringsRules, WithRules;
      var base := Begin(call);
      if base.Failure? {
        return Failure(base.error);
      }
      var baseConfig := base.value;
      if call.identity.None? {
        return Failure(NoIdentity);
      }
      ghost var before := baseConfig.entries;
      var (slug, id) := call.identity.value;
      baseConfig.Put(GitAuthorKey, Text(slug + " <" + id + "+" + slug + "[bot]@users.noreply.github.com>"));
      baseConfig.Put(UsernameKey, Text(slug + "[bot]"));
      baseConfig.Put(PlatformKey, Text(call.component.platform));
      baseConfig.Put(EndpointKey, Text(Endpoint(GitHub, call.component)));
      baseConfig.Put(RepositoriesKey, Repositories([call.branch], call.component.repository));
      FiveWrites(before, call);
      WrittenIsSameElsewhere(WithRules(Base(history).value, LastRules(history)), call);
      OverridesWritten(before, WithRules(Base(history).value, LastRules(history)), call);
      r := Success(baseConfig.entries);
    }

    /** GitLab and Forgejo: author and user name are emptied, the token decides. */
    method GetTokenPlatformConfig(call: Call) returns (r: Result<Config, Error>)
      requires Valid() && !call.on.GitHub?
      modifies this, renovateBaseConfig
      ensures Valid() && history == old(history) + [call]
      ensures r == Rendered(history)
      ensures old(renovateBaseConfig) != null ==> renovateBaseConfig == old(renovateBaseConfig)
    {
      hide Base, LastRules, SameElsewhere, BringsRules, WithRules;
      var base := Begin(call);
      if base.Failure? {
        return Failure(base.error);
      }
      var baseConfig := base.value;
      ghost var before := baseConfig.entries;
      baseConfig.Put(PlatformKey, Text(call.component.platform));
      baseConfig.Put(EndpointKey, Text(Endpoint(call.on, call.component)));
      baseConfig.Put(UsernameKey, Text(""));
      baseConfig.Put(GitAuthorKey, Text(""));
      baseConfig.Put(RepositoriesKey, Repositories([call.branch], call.component.repository));
      FiveWrites(before, call);
      WrittenIsSameElsewhere(WithRules(Base(history).value, LastRules(history)), call);
      OverridesWritten(before, WithRules(Base(history).value, LastRules(history)), call);
      r := Success(baseConfig.entries);
    }

    /** The part the platforms share: fetch the base, add the host rules. */
    method Begin(call: Call) returns (r: Result<SharedMap, Error>)
      requires Valid()
      modifies this, renovateBaseConfig
      ensures Valid() && history == old(history) + [call]
      ensures renovateBaseConfig == null ==> r == Failure(NoBaseConfig(call.source))
      ensures renovateBaseConfig != null ==> r == Success(renovateBaseConfig)
      ensures old(renovateBaseConfig) != null ==> renovateBaseConfig == old(renovateBaseConfig)
      ensures old(renovateBaseConfig) == null && renovateBaseConfig != null ==> fresh(renovateBaseConfig)
    {
      r := GetRenovateBaseConfig(call.source);
      Unfold(history, call);
      history := history + [call];
      if r.Success? {
        AddHostRules(r.value, call.rules);
      }
    }
  }

  // ----- What the law means -----

  /** The five values of a call, per platform. */
  predicate SetsOwn(config: Config, call: Call) {
    && config.Keys >= {PlatformKey, EndpointKey, UsernameKey, GitAuthorKey, RepositoriesKey}
    && config[PlatformKey] == Text(call.component.platform)
    && config[RepositoriesKey] == Repositories([call.branch], call.component.repository)
    && match call.on
       case GitHub =>
         && call.identity.Some?
         && var (slug, id) := call.identity.value;
            && config[EndpointKey] == Text("https://api." + call.component.host + "/")
            && config[UsernameKey] == Text(slug + "[bot]")
            && config[GitAuthorKey] == Text(slug + " <" + id + "+" + slug + "[bot]@users.noreply.github.com>")
       case GitLab =>
         && config[EndpointKey] == Text("https://" + call.component.host + "/api/v4/")
         && config[UsernameKey] == config[GitAuthorKey] == Text("")
       case Forgejo =>
         && config[EndpointKey] == Text(call.component.scheme + "://" + call.component.host + "/api/v1/")
         && config[UsernameKey] == config[GitAuthorKey] == Text("")
  }

  lemma OverridesSetOwn(call: Call)
    requires Identified(call)
    ensures SetsOwn(Overrides(call), call)
  {
  }

  lemma OverridesWin(config: Config, call: Call)
    requires Identified(call)
    ensures SetsOwn(config + Overrides(call), call)
  {
    OverridesSetOwn(call);
    var own, all := Overrides(call), config + Overrides(call);
    hide Overrides;
    assert own.Keys == OVERRIDDEN && all.Keys == config.Keys + own.Keys;
    assert forall key | key in own :: all[key] == own[key];
  }

  /** When a call returns a configuration, and that its own values stand in it whatever the base says. */
  lemma RenderedSetsOwn(history: seq<Call>)
    requires history != []
    ensures var call := history[|history| - 1];
      && (Rendered(history).Success? <==> Base(history).Some? && (call.on == GitHub ==> call.identity.Some?))
      && (Rendered(history).Success? ==> SetsOwn(Rendered(history).value, call))
  {
    hide Base, LastRules, Overrides, WithRules, SetsOwn;
    var call := history[|history| - 1];
    if Rendered(history).Success? {
      OverridesWin(WithRules(Base(history).value, LastRules(history)), call);
    }
  }

  /** The base is that of the first call that could read the two documents, the self-hosted one on top. */
  lemma {:induction false} BaseIsFirst(history: seq<Call>)
    ensures Base(history).None? <==> forall call | call in history :: !call.source.Documents?
    ensures forall i | 0 <= i < |history| && history[i].source.Documents?
        && (forall k | 0 <= k < i :: !history[k].source.Documents?) ::
      && Base(history).Some?
      && var base, source := Base(history).value, history[i].source;
         && base.Keys == source.renovate.Keys + source.selfHosted.Keys
         && forall key | key in base ::
           base[key] == if key in source.selfHosted then source.selfHosted[key] else source.renovate[key]
  {
    if history != [] {
      var before := history[..|history| - 1];
      BaseIsFirst(before);
      assert history == before + [history[|history| - 1]];
      assert forall i | 0 <= i < |before| :: before[i] == history[i];
    }
  }

  /** Once read, the base never changes. */
  lemma {:induction false} BaseIsKept(history: seq<Call>, more: seq<Call>)
    requires Base(history).Some?
    ensures Base(history + more) == Base(history)
    decreases |more|
  {
    if more == [] {
      assert history + more == history;
    } else {
      BaseIsKept(history, more[..|more| - 1]);
      assert (history + more)[..|history + more| - 1] == history + more[..|more| - 1];
    }
  }

  /** Whatever was called before, every key but hostRules is as in a new process with the same base. */
  lemma OtherKeysAreFresh(history: seq<Call>, key: Key)
    requires history != [] && Rendered(history).Success? && key != HostRulesKey
    ensures var config := Rendered(history).value;
      var alone := Base(history).value + Overrides(history[|history| - 1]);
      (key in config <==> key in alone) && (key in config ==> config[key] == alone[key])
  {
    hide Base, LastRules, Overrides, Identified;
  }

  lemma {:induction false} LastRulesAt(history: seq<Call>, i: nat)
    requires i < |history| && BringsRules(history[i]) && Base(history[..i + 1]).Some?
    requires forall k | i < k < |history| :: !BringsRules(history[k])
    ensures LastRules(history) == history[i].rules
    decreases |history|
  {
    var before := history[..|history| - 1];
    if i == |history| - 1 {
      assert history[..i + 1] == history;
    } else {
      assert before[..i + 1] == history[..i + 1];
      assert forall k | i < k < |before| :: before[k] == history[k];
      LastRulesAt(before, i);
    }
  }

  /**
   The host rules of a call stay in every later configuration until other rules replace them, also when
   the call that brought them failed.
   */
  lemma RulesStay(history: seq<Call>, i: nat)
    requires i < |history| && BringsRules(history[i]) && Base(history[..i + 1]).Some?
    requires forall k | i < k < |history| :: !BringsRules(history[k])
    requires Identified(history[|history| - 1])
    ensures Rendered(history).Success? && HoldsRules(Rendered(history).value, history[i].rules.value)
  {
    hide Base, LastRules;
    LastRulesAt(history, i);
    var start, end := history[..i + 1], history[i + 1..];
    BaseIsKept(start, end);
    assert start + end == history;
    assert HostRulesKey !in OVERRIDDEN;
  }

  /** The configuration of a call alone: merged base, its own rules, its own values. */
  function Alone(base: Config, call: Call): Config
    requires Identified(call)
  {
    WithRules(base, if BringsRules(call) then call.rules else None) + Overrides(call)
  }

  /**
   A configuration is its call's own exactly when the call brings rules, or no earlier call left any, or
   those left are the base's.
   */
  lemma IndependentOfHistoryIff(history: seq<Call>)
    requires history != [] && Rendered(history).Success?
    ensures var call, left := history[|history| - 1], LastRules(history[..|history| - 1]);
      var base := Base(history).value;
      Rendered(history).value == Alone(base, call)
      <==> BringsRules(call) || left.None? || HoldsRules(base, left.value)
  {
    var call, left := history[|history| - 1], LastRules(history[..|history| - 1]);
    var base := Base(history).value;
    if !BringsRules(call) && left.Some? {
      SameWithRulesIff(base, left.value, call);
    }
  }

  lemma SameWithRulesIff(base: Config, rules: seq<HostRule>, call: Call)
    requires Identified(call)
    ensures base[HostRulesKey := HostRules(rules)] + Overrides(call) == base + Overrides(call)
      <==> HoldsRules(base, rules)
  {
    var leaked, own := base[HostRulesKey := HostRules(rules)] + Overrides(call), base + Overrides(call);
    assert leaked[HostRulesKey] == HostRules(rules);
    assert HostRulesKey in own <==> HostRulesKey in base;
    if HoldsRules(base, rules) {
      assert base[HostRulesKey := HostRules(rules)] == base;
    }
  }
}
