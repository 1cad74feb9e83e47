/**
 How long a GitHub installation token is reused: internal/config/config.go, TokenCache in
 internal/component/github/cache.go and GetToken in internal/component/github/github.go.
 Times and durations are in nanoseconds.
 */
module TokenValidity {
  import opened Wrappers

  // ----- The configuration -----

  const MINUTE := 60 * 1_000_000_000

  datatype Config = Config(tokenTTL: int, tokenMinValidity: int, kiteEnabled: bool, kiteURL: string)

  /** `environmentURL`: the variable KITE_API_URL. */
  function DefaultConfig(environmentURL: string): Config {
    Config(60 * MINUTE, 30 * MINUTE, false, environmentURL)
  }

  /** The document; a duration is None when its text is missing or does not parse. */
  datatype Document = Document(
    tokenTTL: Option<int>, tokenMinValidity: Option<int>, kiteEnabled: bool, kiteURL: string)

  predicate Usable(duration: Option<int>) {
    duration.Some? && duration.value > 0
  }

  predicate Validate(cfg: Config) {
    cfg.tokenMinValidity < cfg.tokenTTL
  }

  /** None: the document is not JSON. Fields of the defaults are overwritten one by one, then checked together. */
  method Parse(document: Option<Document>, environmentURL: string) returns (cfg: Config)
    ensures 0 < cfg.tokenMinValidity < cfg.tokenTTL
    ensures document.None? ==> cfg == Config(3_600_000_000_000, 1_800_000_000_000, false, environmentURL)
    ensures document.Some? ==>
      var d := document.value;
      var ttl := if d.tokenTTL.Some? && d.tokenTTL.value > 0 then d.tokenTTL.value else 3_600_000_000_000;
      var min := if d.tokenMinValidity.Some? && d.tokenMinValidity.value > 0 then d.tokenMinValidity.value
                 else 1_800_000_000_000;
      cfg == if min < ttl then Config(ttl, min, d.kiteEnabled, if d.kiteURL != "" then d.kiteURL else environmentURL)
             else Config(3_600_000_000_000, 1_800_000_000_000, false, environmentURL)
  {
    if document.None? {
      return DefaultConfig(environmentURL);
    }
    var d := document.value;
    cfg := DefaultConfig(environmentURL);
    if Usable(d.tokenTTL) {
      cfg := cfg.(tokenTTL := d.tokenTTL.value);
    }
    if Usable(d.tokenMinValidity) {
      cfg := cfg.(tokenMinValidity := d.tokenMinValidity.value);
    }
    cfg := cfg.(kiteEnabled := d.kiteEnabled);
    if d.kiteURL != "" {
      cfg := cfg.(kiteURL := d.kiteURL);
    }
    if !Validate(cfg) {
      cfg := DefaultConfig(environmentURL);
    }
  }

  // ----- The cache as the source's object -----

  datatype TokenInfo = TokenInfo(token: string, expiresAt: int)

  predicate Reusable(info: TokenInfo, now: int, cfg: Config) {
    info.expiresAt - now >= cfg.tokenMinValidity
  }

  class TokenCache {
    var entries: map<string, TokenInfo>

    constructor ()
      ensures entries == map[]
    {
      entries := map[];
    }

    method Set(key: string, info: TokenInfo)
      modifies this
      ensures entries == old(entries)[key := info]
    {
      entries := entries[key := info];
    }

    /** `now`: the clock when the entry is looked at. */
    method Get(key: string, now: int, cfg: Config) returns (r: Option<TokenInfo>)
      ensures r == if key in entries && Reusable(entries[key], now, cfg) then Some(entries[key]) else None
    {
      if key !in entries {
        return None;
      }
      var entry := entries[key];
      if entry.expiresAt - now < cfg.tokenMinValidity {
        return None;
      }
      return Some(entry);
    }

    /**
     `looked`: the clock at the lookup; `fetch`: the token GitHub issues and the clock after it arrived,
     None when the request fails.
     */
    method GetToken(key: string, looked: int, fetch: Option<(string, int)>, cfg: Config) returns (r: Option<string>)
      modifies this
      ensures var before, step := old(entries), Step(old(entries), key, looked, fetch, cfg);
        entries == step.0 && r == step.1
    {
      var cached := Get(key, looked, cfg);
      if cached.Some? {
        return Some(cached.value.token);
      }
      if fetch.None? {
        return None;
      }
      var info := TokenInfo(fetch.value.0, fetch.value.1 + cfg.tokenTTL);
      Set(key, info);
      return Some(info.token);
    }
  }

  function Step(
    entries: map<string, TokenInfo>, key: string, looked: int, fetch: Option<(string, int)>, cfg: Config)
    : (map<string, TokenInfo>, Option<string>)
  {
    if key in entries && Reusable(entries[key], looked, cfg) then (entries, Some(entries[key].token))
    else if fetch.None? then (entries, None)
    else (entries[key := TokenInfo(fetch.value.0, fetch.value.1 + cfg.tokenTTL)], Some(fetch.value.0))
  }

  // ----- Interleaved calls -----

  /** The two points where concurrent calls of GetToken touch the cache; the fetch lies between them. */
  datatype Event =
    | Hit(key: string, now: int, token: string)
    | Miss(key: string, now: int)
    | Stored(key: string, issued: int, now: int, token: string)

  type Entries = map<string, TokenInfo>

  function After(log: seq<Event>, cfg: Config): Entries {
    if log == [] then map[]
    else
      var before := After(log[..|log| - 1], cfg);
      match log[|log| - 1]
      case Stored(key, _, now, token) => before[key := TokenInfo(token, now + cfg.tokenTTL)]
      case _ => before
  }

  /**
   A log of any number of calls for any keys, in the order of the cache's lock: a hit and a miss answer
   what the cache holds, and a stored token was issued after a miss of its key. `now` is the clock read
   for the entry; entries may be stored in another order than their clocks were read.
   */
  ghost predicate Run(log: seq<Event>, cfg: Config) {
    forall i | 0 <= i < |log| :: Permitted(log, i, cfg)
  }

  ghost predicate Permitted(log: seq<Event>, i: nat, cfg: Config)
    requires i < |log|
  {
    var entries := After(log[..i], cfg);
    match log[i]
    case Hit(key, now, token) => key in entries && Reusable(entries[key], now, cfg) && entries[key].token == token
    case Miss(key, now) => key !in entries || !Reusable(entries[key], now, cfg)
    case Stored(key, issued, now, _) => issued <= now && exists m :: MissBefore(log, m, i, key, issued)
  }

  predicate MissBefore(log: seq<Event>, m: nat, i: nat, key: string, issued: int)
    requires i < |log|
  {
    m < i && log[m].Miss? && log[m].key == key && log[m].now <= issued
  }

  predicate Returned(event: Event) {
    !event.Miss?
  }

  /** Where the entry of a key comes from. */
  lemma {:induction false} EntryWasStored(log: seq<Event>, key: string, cfg: Config) returns (i: nat)
    requires key in After(log, cfg)
    ensures i < |log| && log[i].Stored? && log[i].key == key
    ensures After(log, cfg)[key] == TokenInfo(log[i].token, log[i].now + cfg.tokenTTL)
    ensures forall k | i < k < |log| :: !(log[k].Stored? && log[k].key == key)
    decreases |log|
  {
    var n := |log| - 1;
    if log[n].Stored? && log[n].key == key {
      i := n;
    } else {
      i := EntryWasStored(log[..n], key, cfg);
      assert forall k | i < k < n :: log[k] == log[..n][k];
    }
  }

  /** A token is valid for the TTL from its issue on; what is left of that when it is handed out. */
  function Remaining(issued: int, now: int, cfg: Config): int {
    issued + cfg.tokenTTL - now
  }

  /**
   Every returned token was stored by some call, and when it is chosen at least the minimum validity is
   left, less only the time its answer took to be recorded.
   */
  lemma ReturnedTokensAreValid(log: seq<Event>, i: nat, cfg: Config) returns (s: nat)
    requires 0 < cfg.tokenMinValidity < cfg.tokenTTL
    requires Run(log, cfg) && i < |log| && Returned(log[i])
    ensures s <= i && log[s].Stored? && log[s].key == log[i].key && log[s].token == log[i].token
    ensures log[s].now + cfg.tokenTTL - log[i].now >= cfg.tokenMinValidity
    ensures Remaining(log[s].issued, log[i].now, cfg) >= cfg.tokenMinValidity - (log[s].now - log[s].issued)
    ensures forall k | s < k < i :: !(log[k].Stored? && log[k].key == log[i].key)
  {
    assert Permitted(log, i, cfg);
    if log[i].Stored? {
      s := i;
    } else {
      s := EntryWasStored(log[..i], log[i].key, cfg);
      assert forall k | s < k < i :: log[k] == log[..i][k];
    }
  }

  /** A stored token answers its key up to TTL minus minimum validity after the store, and not a moment later. */
  lemma ReusableExactly(log: seq<Event>, s: nat, i: nat, cfg: Config)
    requires Run(log, cfg) && s < i < |log| && log[s].Stored? && log[i].key == log[s].key && !log[i].Stored?
    requires forall k | s < k < i :: !(log[k].Stored? && log[k].key == log[s].key)
    ensures log[i].Hit? <==> log[i].now <= log[s].now + cfg.tokenTTL - cfg.tokenMinValidity
    ensures log[i].Hit? ==> log[i].token == log[s].token
  {
    KeptUntil(log, s, i, cfg);
    assert Permitted(log, i, cfg);
  }

  lemma {:induction false} KeptUntil(log: seq<Event>, s: nat, i: nat, cfg: Config)
    requires s < i <= |log| && log[s].Stored?
    requires forall k | s < k < i :: !(log[k].Stored? && log[k].key == log[s].key)
    ensures log[s].key in After(log[..i], cfg)
    ensures After(log[..i], cfg)[log[s].key] == TokenInfo(log[s].token, log[s].now + cfg.tokenTTL)
    decreases i
  {
    assert log[..i][..i - 1] == log[..i - 1];
    if i - 1 > s {
      KeptUntil(log, s, i - 1, cfg);
    }
  }

  lemma AfterOne(log: seq<Event>, event: Event, cfg: Config)
    ensures After(log + [event], cfg) ==
      match event
      case Stored(key, _, now, token) => After(log, cfg)[key := TokenInfo(token, now + cfg.tokenTTL)]
      case _ => After(log, cfg)
  {
  }

  /** The events of one call that runs alone. */
  function EventsOf(entries: Entries, key: string, looked: int, fetch: Option<(string, int)>, issued: int, cfg: Config)
    : seq<Event>
  {
    if key in entries && Reusable(entries[key], looked, cfg) then [Hit(key, looked, entries[key].token)]
    else if fetch.None? then [Miss(key, looked)]
    else [Miss(key, looked), Stored(key, issued, fetch.value.1, fetch.value.0)]
  }

  lemma RunExtends(log: seq<Event>, event: Event, cfg: Config)
    requires Run(log, cfg) && Permitted(log + [event], |log|, cfg)
    ensures Run(log + [event], cfg)
  {
    var longer := log + [event];
    forall i | 0 <= i < |log| ensures Permitted(longer, i, cfg) {
      assert longer[..i] == log[..i] && Permitted(log, i, cfg);
      if log[i].Stored? {
        var m :| MissBefore(log, m, i, log[i].key, log[i].issued);
        assert MissBefore(longer, m, i, log[i].key, log[i].issued);
      }
    }
  }

  /**
   A call that runs alone is its lookup followed, on a miss, by its store: the method changes the cache as
   these events do, the log stays a run, and the token returned is that of the last event.
   */
  lemma CallIsItsEvents(log: seq<Event>, key: string, looked: int, fetch: Option<(string, int)>, issued: int,
      cfg: Config)
    requires Run(log, cfg) && looked <= issued && (fetch.Some? ==> issued <= fetch.value.1)
    ensures var entries := After(log, cfg);
      var events := EventsOf(entries, key, looked, fetch, issued, cfg);
      var (entries', token) := Step(entries, key, looked, fetch, cfg);
      && entries' == After(log + events, cfg) && Run(log + events, cfg)
      && (token.Some? <==> Returned(events[|events| - 1]))
      && (token.Some? ==> events[|events| - 1].key == key && events[|events| - 1].token == token.value)
  {
    var entries := After(log, cfg);
    hide After, Run;
    if key in entries && Reusable(entries[key], looked, cfg) {
      var hit := Hit(key, looked, entries[key].token);
      assert (log + [hit])[..|log|] == log;
      RunExtends(log, hit, cfg);
      AfterOne(log, hit, cfg);
    } else {
      var missed := Miss(key, looked);
      var longer := log + [missed];
      assert longer[..|log|] == log;
      RunExtends(log, missed, cfg);
      AfterOne(log, missed, cfg);
      if fetch.Some? {
        var stored := Stored(key, issued, fetch.value.1, fetch.value.0);
        assert log + [missed, stored] == longer + [stored];
        assert MissBefore(longer + [stored], |log|, |longer|, key, issued);
        RunExtends(longer, stored, cfg);
        AfterOne(longer, stored, cfg);
      }
    }
  }

  /**
   Unlike the installations cache, this one has no single flight: whatever was stored in the meantime, every
   call that missed may still store what it fetched, and the newest store replaces the entry.
   */
  lemma EveryMissMayStore(log: seq<Event>, m: nat, token: string, issued: int, now: int, cfg: Config)
    requires Run(log, cfg) && m < |log| && log[m].Miss? && log[m].now <= issued <= now
    ensures var stored := Stored(log[m].key, issued, now, token);
      && Run(log + [stored], cfg)
      && After(log + [stored], cfg) == After(log, cfg)[log[m].key := TokenInfo(token, now + cfg.tokenTTL)]
  {
    var stored := Stored(log[m].key, issued, now, token);
    assert (log + [stored])[..|log|] == log;
    assert MissBefore(log + [stored], m, |log|, log[m].key, issued);
    RunExtends(log, stored, cfg);
    AfterOne(log, stored, cfg);
  }

  /** So two calls that missed one key both fetch and store, in either order, on top of any run. */
  lemma SeveralFetchesPossible(log: seq<Event>, m: nat, n: nat, a: string, b: string, issued: int, now: int,
      cfg: Config)
    requires Run(log, cfg) && m < |log| && n < |log| && log[m].Miss? && log[n].Miss? && log[m].key == log[n].key
    requires log[m].now <= issued <= now && log[n].now <= issued
    ensures Run(log + [Stored(log[m].key, issued, now, a)] + [Stored(log[n].key, issued, now, b)], cfg)
  {
    EveryMissMayStore(log, m, a, issued, now, cfg);
    EveryMissMayStore(log + [Stored(log[m].key, issued, now, a)], n, b, issued, now, cfg);
  }
}
