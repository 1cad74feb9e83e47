/**
 The stale-allowed cache of internal/component/github/cache.go as a step system.

 Any number of Get calls and background refresh goroutines interleave. A step is one lock-free
 load or store, one clock reading, one mutex operation, or the straight-line code of a
 mutex-protected region that touches only fields guarded by that mutex. The comment on each
 program counter names the source line the thread is about to execute.
 */
module StaleAllowedCache {
  import opened Wrappers

  type Key = string
  type Value(==, !new)

  /** A cached value tagged with the refresh that produced it. */
  datatype Entry = Entry(value: Value, gen: nat)

  /** A Get call: the key asked for and the generation cached for that key when the call began (-1 for none). */
  datatype Call = Call(key: Key, floor: int)

  datatype Role = Background | Caller(call: Call)

  /**
   Which return statement a call took, with the readings that made it take it; `upto` tells, as history,
   how many refreshes had settled when the expiry was read.
   */
  datatype How =
    | Fast(now: int, expiry: int, upto: nat)
    | Recheck(now: int, expiry: int, upto: nat)
    | Initiated(gen: nat)
    | Waited(gen: nat)
    | Refreshed(gen: nat)

  datatype Pc =
    | LoadValue(call: Call)                                                  // line 51
    | LoadExpiry(call: Call, seen: Option<Entry>)                            // line 52
    | CheckClock(call: Call, seen: Option<Entry>, expiry: int, upto: nat)    // line 54
    | AwaitLock(call: Call)                                                  // line 63
    | ReadFlag(call: Call)                                                   // line 66, mutex held
    | ReloadValue(call: Call)                                                // line 76, mutex held
    | ReloadExpiry(call: Call, seen: Option<Entry>)                          // line 77, mutex held
    | Decide(call: Call, seen: Option<Entry>, expiry: int)                   // lines 78-87, mutex held
    | Blocked(call: Call, chan: nat)                                         // line 70
    | LoadAfterWait(call: Call, chan: nat)                                   // line 71
    | Refreshing(gen: nat, role: Role)                                       // lines 102, 115
    | StoreValue(gen: nat, role: Role, fetched: Value)                       // lines 103, 120
    | ReadNow(gen: nat, role: Role, fetched: Value)                          // lines 104, 121
    | StoreExpiry(gen: nat, role: Role, fetched: Value, now: int)            // lines 104, 121
    | CleanupLock(gen: nat, role: Role, result: Option<Entry>)               // line 90
    | CleanupSignal(gen: nat, role: Role, result: Option<Entry>)             // lines 91-92, mutex held
    | CleanupUnlock(gen: nat, role: Role, result: Option<Entry>)             // line 93, mutex held
    | Returned(call: Call, result: Option<Entry>, how: How)
    | Exited

  /** How far a refresh got. */
  datatype Outcome =
    | Running
    | Failed
    | Fetched(value: Value)
    | Stored(value: Value)
    | Stamped(value: Value, now: int)
    | Done(value: Value, now: int)

  /** History of one refresh: who asked, who runs it, when it began and what the asker saw cached. */
  datatype Refresh = Refresh(key: Key, caller: nat, owner: nat, start: int, stale: Option<Entry>, outcome: Outcome)

  /**
   Shared state. Channel g is the `refreshDone` made by refresh g, and closes[g] counts its closes.
   A thread is one Get call or one background goroutine; threads and log are append-only history.
   */
  datatype State = State(
    period: int,
    firstExpiry: int,
    clock: int,
    data: map<Key, Entry>,
    expiry: int,
    lock: Option<nat>,
    inProgress: bool,
    done: Option<nat>,
    closes: seq<nat>,
    threads: seq<Pc>,
    log: seq<Refresh>)

  function Lookup(data: map<Key, Entry>, key: Key): Option<Entry> {
    if key in data then Some(data[key]) else None
  }

  function GenOf(s: State, key: Key): int {
    if key in s.data then s.data[key].gen else -1
  }

  // ----- The step relation -----

  predicate Init(s: State) {
    && s.expiry == s.firstExpiry == s.clock + s.period
    && s.period >= 0
    && s.data == map[] && s.lock == None && !s.inProgress && s.done == None
    && s.closes == [] && s.threads == [] && s.log == []
  }

  predicate Finished(pc: Pc) {
    pc.Returned? || pc.Exited?
  }

  /** Only acquiring the mutex and receiving from an open channel can block. */
  predicate Enabled(s: State, t: nat) {
    t < |s.threads| &&
    match s.threads[t]
    case AwaitLock(_) => s.lock.None?
    case CleanupLock(_, _, _) => s.lock.None?
    case Blocked(_, chan) => chan < |s.closes| && s.closes[chan] > 0
    case pc => !Finished(pc)
  }

  function Goto(s: State, t: nat, pc: Pc): State
    requires t < |s.threads|
  {
    s.(threads := s.threads[t := pc])
  }

  function SetOutcome(log: seq<Refresh>, gen: nat, outcome: Outcome): seq<Refresh> {
    if gen < |log| then log[gen := log[gen].(outcome := outcome)] else log
  }

  /** Lines 83-109: publish a new refresh, run it here or in a new goroutine, release the mutex. */
  function BeginRefresh(s: State, t: nat, call: Call, seen: Option<Entry>): State
    requires t < |s.threads|
  {
    var gen := |s.log|;
    var threads :=
      if seen.Some? then s.threads[t := Returned(call, seen, Initiated(gen))] + [Refreshing(gen, Background)]
      else s.threads[t := Refreshing(gen, Caller(call))];
    var owner := if seen.Some? then |s.threads| else t;
    s.(inProgress := true, done := Some(gen), closes := s.closes + [0], lock := None, threads := threads,
       log := s.log + [Refresh(call.key, t, owner, s.clock, seen, Running)])
  }

  function AfterCleanup(gen: nat, role: Role, result: Option<Entry>): Pc {
    match role
    case Background => Exited
    case Caller(call) => Returned(call, result, Refreshed(gen))
  }

  predicate Settled(o: Outcome) {
    o.Failed? || o.Done?
  }

  /** All refreshes but perhaps the last one have settled. */
  function SettledCount(log: seq<Refresh>): nat {
    if log != [] && !Settled(log[|log| - 1].outcome) then |log| - 1 else |log|
  }

  /** The thread reads shared state or works the mutex; nothing else changes. */
  predicate IsLocal(s: State, pc: Pc) {
    || pc.LoadValue? || pc.LoadExpiry? || pc.CheckClock? || pc.AwaitLock? || pc.ReadFlag?
    || pc.ReloadValue? || pc.ReloadExpiry? || pc.Blocked? || pc.LoadAfterWait?
    || (pc.Decide? && pc.seen.Some? && s.clock <= pc.expiry)
    || pc.CleanupLock? || pc.CleanupUnlock?
  }

  function LocalNext(s: State, pc: Pc): Pc
    requires IsLocal(s, pc)
  {
    match pc
    case LoadValue(call) => LoadExpiry(call, Lookup(s.data, call.key))
    case LoadExpiry(call, seen) => CheckClock(call, seen, s.expiry, SettledCount(s.log))
    case CheckClock(call, seen, expiry, upto) =>
      if seen.None? || s.clock > expiry then AwaitLock(call) else Returned(call, seen, Fast(s.clock, expiry, upto))
    case AwaitLock(call) => ReadFlag(call)
    case ReadFlag(call) =>
      if s.inProgress && s.done.Some? then Blocked(call, s.done.value) else ReloadValue(call)
    case ReloadValue(call) => ReloadExpiry(call, Lookup(s.data, call.key))
    case ReloadExpiry(call, seen) => Decide(call, seen, s.expiry)
    case Decide(call, seen, expiry) => Returned(call, seen, Recheck(s.clock, expiry, |s.log|))
    case Blocked(call, chan) => LoadAfterWait(call, chan)
    case LoadAfterWait(call, chan) => Returned(call, Lookup(s.data, call.key), Waited(chan))
    case CleanupLock(gen, role, result) => CleanupSignal(gen, role, result)
    case CleanupUnlock(gen, role, result) => AfterCleanup(gen, role, result)
  }

  function LocalLock(s: State, t: nat, pc: Pc): Option<nat> {
    match pc
    case AwaitLock(_) => Some(t)
    case CleanupLock(_, _, _) => Some(t)
    case ReadFlag(_) => if s.inProgress && s.done.Some? then None else s.lock
    case Decide(_, _, _) => None
    case CleanupUnlock(_, _, _) => None
    case _ => s.lock
  }

  /** refreshFunc is running, or its value is being stored and stamped. */
  predicate AtWork(pc: Pc) {
    pc.Refreshing? || pc.StoreValue? || pc.ReadNow? || pc.StoreExpiry?
  }

  function NextOutcome(s: State, pc: Pc, reply: Option<Value>): Outcome
    requires AtWork(pc)
  {
    match pc
    case Refreshing(_, _) => if reply.Some? then Fetched(reply.value) else Failed
    case StoreValue(_, _, v) => Stored(v)
    case ReadNow(_, _, v) => Stamped(v, s.clock)
    case StoreExpiry(_, _, v, now) => Done(v, now)
  }

  function RefresherNext(s: State, pc: Pc, reply: Option<Value>): Pc
    requires AtWork(pc)
  {
    match pc
    case Refreshing(gen, role) =>
      if reply.Some? then StoreValue(gen, role, reply.value) else CleanupLock(gen, role, None)
    case StoreValue(gen, role, v) => ReadNow(gen, role, v)
    case ReadNow(gen, role, v) => StoreExpiry(gen, role, v, s.clock)
    case StoreExpiry(gen, role, v, _) => CleanupLock(gen, role, Some(Entry(v, gen)))
  }

  /** refreshFunc returns, and the refresher stores the value, reads the clock and stores the expiry. */
  function RefresherStep(s: State, t: nat, reply: Option<Value>): State
    requires t < |s.threads| && AtWork(s.threads[t])
  {
    var pc := s.threads[t];
    s.(threads := s.threads[t := RefresherNext(s, pc, reply)],
       log := SetOutcome(s.log, pc.gen, NextOutcome(s, pc, reply)),
       data :=
         if pc.StoreValue? && pc.gen < |s.log| then s.data[s.log[pc.gen].key := Entry(pc.fetched, pc.gen)]
         else s.data,
       expiry := if pc.StoreExpiry? then pc.now + s.period else s.expiry)
  }

  /** Lines 91-92: clear the flag and close the channel. */
  function SignalDone(s: State, t: nat, gen: nat, role: Role, result: Option<Entry>): State
    requires t < |s.threads|
  {
    var closes := if gen < |s.closes| then s.closes[gen := s.closes[gen] + 1] else s.closes;
    Goto(s, t, CleanupUnlock(gen, role, result)).(inProgress := false, closes := closes)
  }

  /** One step of thread t; `reply` is what refreshFunc answers if this step is its return. */
  function RunThread(s: State, t: nat, reply: Option<Value>): State
    requires Enabled(s, t)
  {
    var pc := s.threads[t];
    if IsLocal(s, pc) then Goto(s, t, LocalNext(s, pc)).(lock := LocalLock(s, t, pc))
    else if pc.Decide? then BeginRefresh(s, t, pc.call, pc.seen)
    else if pc.CleanupSignal? then SignalDone(s, t, pc.gen, pc.role, pc.result)
    else RefresherStep(s, t, reply)
  }

  datatype Step = StartCall(key: Key) | Tick(elapsed: nat) | Run(t: nat, reply: Option<Value>)

  predicate Allowed(s: State, step: Step) {
    step.Run? ==> Enabled(s, step.t)
  }

  function Apply(s: State, step: Step): State
    requires Allowed(s, step)
  {
    match step
    case StartCall(key) => s.(threads := s.threads + [LoadValue(Call(key, GenOf(s, key)))])
    case Tick(elapsed) => s.(clock := s.clock + elapsed)
    case Run(t, reply) => RunThread(s, t, reply)
  }

  /** A finite execution: the states passed through and the step taken between neighbours. */
  datatype Execution = Execution(states: seq<State>, steps: seq<Step>)

  predicate IsExecution(e: Execution) {
    && |e.states| == |e.steps| + 1
    && (forall i {:trigger e.steps[i]} | 0 <= i < |e.steps| ::
          Allowed(e.states[i], e.steps[i]) && e.states[i + 1] == Apply(e.states[i], e.steps[i]))
  }

  predicate Reachable(e: Execution) {
    IsExecution(e) && Init(e.states[0])
  }

  // ----- The invariant -----

  predicate HoldsLock(pc: Pc) {
    pc.ReadFlag? || pc.ReloadValue? || pc.ReloadExpiry? || pc.Decide? || pc.CleanupSignal? || pc.CleanupUnlock?
  }

  /** The thread is a refresh between its start and its cleanup. */
  predicate Live(pc: Pc) {
    || pc.Refreshing? || pc.StoreValue? || pc.ReadNow? || pc.StoreExpiry?
    || pc.CleanupLock? || pc.CleanupSignal?
  }

  predicate Published(o: Outcome) {
    o.Stored? || o.Stamped? || o.Done?
  }

  /** `entry` was put in the cache for `key` by the refresh it is tagged with. */
  predicate Genuine(s: State, key: Key, entry: Entry) {
    GenuineIn(s.log, key, entry)
  }

  predicate GenuineIn(log: seq<Refresh>, key: Key, entry: Entry) {
    && entry.gen < |log|
    && log[entry.gen].key == key
    && Published(log[entry.gen].outcome)
    && log[entry.gen].outcome.value == entry.value
  }

  /** The expiry in force after the refreshes of `log`. */
  function ExpiryAfter(log: seq<Refresh>, period: int, first: int): int {
    if log == [] then first
    else
      var last := log[|log| - 1];
      if last.outcome.Done? then last.outcome.now + period else ExpiryAfter(log[..|log| - 1], period, first)
  }

  predicate InvLock(s: State) {
    && (forall t | 0 <= t < |s.threads| :: HoldsLock(s.threads[t]) <==> s.lock == Some(t))
    && (s.lock.Some? ==> s.lock.value < |s.threads|)
  }

  predicate InvRefresher(s: State) {
    && (forall t | 0 <= t < |s.threads| && Live(s.threads[t]) ::
          s.inProgress && s.threads[t].gen == |s.log| - 1 && s.log[|s.log| - 1].owner == t)
    && (s.inProgress ==>
          && |s.log| > 0 && s.done == Some(|s.log| - 1)
          && s.log[|s.log| - 1].owner < |s.threads|
          && Live(s.threads[s.log[|s.log| - 1].owner]))
  }

  predicate InvChannels(s: State) {
    && |s.closes| == |s.log|
    && forall g | 0 <= g < |s.log| :: s.closes[g] == if s.inProgress && g == |s.log| - 1 then 0 else 1
  }

  predicate InvData(s: State) {
    && (forall k | k in s.data :: Genuine(s, k, s.data[k]))
    && (forall g | 0 <= g < |s.log| && Published(s.log[g].outcome) :: GenOf(s, s.log[g].key) >= g)
    && (forall g | 0 <= g < |s.log| && s.log[g].stale.Some? ::
          s.log[g].stale.value.gen < g && GenOf(s, s.log[g].key) >= s.log[g].stale.value.gen)
  }

  /** A refresh that starts after another of its key stored a value sees that value, or a newer one, cached. */
  predicate InvOrder(s: State) {
    forall f, g | 0 <= f < g < |s.log| && Published(s.log[f].outcome) && s.log[f].key == s.log[g].key ::
      s.log[g].stale.Some? && s.log[g].stale.value.gen >= f
  }

  /** What a refresh found cached when it began was genuine. */
  predicate InvStale(log: seq<Refresh>) {
    forall g | 0 <= g < |log| && log[g].stale.Some? :: GenuineIn(log, log[g].key, log[g].stale.value)
  }

  predicate InvClock(s: State) {
    && s.period >= 0
    && s.expiry == ExpiryAfter(s.log, s.period, s.firstExpiry)
    && (forall g | 0 <= g < |s.log| && s.log[g].stale.Some? ::
          s.log[g].start > ExpiryAfter(s.log[..g], s.period, s.firstExpiry))
    && (forall g | 0 <= g < |s.log| :: s.log[g].start <= s.clock)
    && (forall g | 0 <= g < |s.log| && (s.log[g].outcome.Stamped? || s.log[g].outcome.Done?) ::
          s.log[g].start <= s.log[g].outcome.now <= s.clock)
  }

  predicate InvSettled(s: State) {
    forall g | 0 <= g < |s.log| :: (s.inProgress && g == |s.log| - 1) || Settled(s.log[g].outcome)
  }

  /** The expiry read was the one in force after the first `upto` refreshes, which have all settled. */
  predicate InForce(s: State, expiry: int, upto: nat) {
    && upto <= |s.log| && AllSettled(s.log[..upto])
    && expiry == ExpiryAfter(s.log[..upto], s.period, s.firstExpiry)
  }

  predicate AllSettled(log: seq<Refresh>) {
    forall g | 0 <= g < |log| :: Settled(log[g].outcome)
  }

  /** No refresh of `log` published a value for the key after refresh `gen`. */
  predicate NewestIn(log: seq<Refresh>, key: Key, gen: nat) {
    gen < |log| && forall g | gen < g < |log| :: !(log[g].key == key && Published(log[g].outcome))
  }

  predicate Bounded(s: State, call: Call) {
    -1 <= call.floor <= GenOf(s, call.key)
  }

  /** What a value read during a call may be: genuine, and no older than what was cached when the call began. */
  predicate GoodRead(s: State, call: Call, seen: Option<Entry>) {
    match seen
    case None => call.floor == -1
    case Some(e) => Genuine(s, call.key, e) && call.floor <= e.gen <= GenOf(s, call.key)
  }

  /** What a waiter on refresh g of its own key may get. */
  predicate WaiterResult(refresh: Refresh, g: nat, result: Option<Entry>) {
    if refresh.outcome.Done? then result.Some? && result.value.gen >= g
    else result == refresh.stale || (result.Some? && result.value.gen > g)
  }

  predicate GoodReturn(s: State, t: nat, call: Call, result: Option<Entry>, how: How) {
    && GoodRead(s, call, result)
    && match how
       case Fast(now, expiry, upto) => result.Some? && now <= expiry && InForce(s, expiry, upto)
       case Recheck(now, expiry, upto) =>
         && result.Some? && now <= expiry && InForce(s, expiry, upto)
         && NewestIn(s.log[..upto], call.key, result.value.gen)
       case Initiated(g) =>
         && g < |s.log| && s.log[g].key == call.key
         && s.log[g].caller == t && s.log[g].owner != t
         && result.Some? && s.log[g].stale == result
       case Waited(g) =>
         && g < |s.log| && Settled(s.log[g].outcome)
         && (s.log[g].key == call.key ==> WaiterResult(s.log[g], g, result))
       case Refreshed(g) =>
         && g < |s.log| && s.log[g].key == call.key
         && s.log[g].caller == s.log[g].owner == t
         && s.log[g].stale.None?
         && match s.log[g].outcome
            case Done(v, _) => result == Some(Entry(v, g))
            case Failed => result == None
            case _ => false
  }

  predicate GoodRole(s: State, t: nat, gen: nat, role: Role) {
    && gen < |s.log|
    && match role
       case Background => s.log[gen].caller != t && s.log[gen].stale.Some?
       case Caller(call) =>
         && s.log[gen].caller == s.log[gen].owner == t && s.log[gen].stale.None?
         && s.log[gen].key == call.key && call.floor == -1
  }

  predicate GoodResult(s: State, gen: nat, result: Option<Entry>) {
    gen < |s.log| &&
    match s.log[gen].outcome
    case Done(v, _) => result == Some(Entry(v, gen))
    case Failed => result == None
    case _ => false
  }

  predicate GoodThread(s: State, t: nat)
    requires t < |s.threads|
  {
    match s.threads[t]
    case LoadValue(call) => Bounded(s, call)
    case LoadExpiry(call, seen) => GoodRead(s, call, seen) && Bounded(s, call)
    case CheckClock(call, seen, expiry, upto) =>
      GoodRead(s, call, seen) && Bounded(s, call) && InForce(s, expiry, upto)
    case AwaitLock(call) => Bounded(s, call)
    case ReadFlag(call) => Bounded(s, call)
    case ReloadValue(call) => Bounded(s, call) && !s.inProgress
    case ReloadExpiry(call, seen) =>
      Bounded(s, call) && !s.inProgress && seen == Lookup(s.data, call.key)
    case Decide(call, seen, expiry) =>
      Bounded(s, call) && !s.inProgress && seen == Lookup(s.data, call.key) && expiry == s.expiry
    case Blocked(call, chan) => Bounded(s, call) && chan < |s.log|
    case LoadAfterWait(call, chan) =>
      Bounded(s, call) && chan < |s.log| && chan < |s.closes| && s.closes[chan] > 0
    case Refreshing(gen, role) => GoodRole(s, t, gen, role) && s.log[gen].outcome == Running
        && GenOf(s, s.log[gen].key) == StaleGen(s, gen)
    case StoreValue(gen, role, v) => GoodRole(s, t, gen, role) && s.log[gen].outcome == Fetched(v)
        && GenOf(s, s.log[gen].key) == StaleGen(s, gen)
    case ReadNow(gen, role, v) => GoodRole(s, t, gen, role) && s.log[gen].outcome == Stored(v)
    case StoreExpiry(gen, role, v, now) => GoodRole(s, t, gen, role) && s.log[gen].outcome == Stamped(v, now)
    case CleanupLock(gen, role, result) => GoodRole(s, t, gen, role) && GoodResult(s, gen, result)
    case CleanupSignal(gen, role, result) => GoodRole(s, t, gen, role) && GoodResult(s, gen, result)
    case CleanupUnlock(gen, role, result) => GoodRole(s, t, gen, role) && GoodResult(s, gen, result)
    case Returned(call, result, how) => GoodReturn(s, t, call, result, how)
    case Exited => true
  }

  function StaleGen(s: State, gen: nat): int
    requires gen < |s.log|
  {
    match s.log[gen].stale case None => -1 case Some(e) => e.gen
  }

  /** The part of the invariant that does not look at what individual threads remember. */
  predicate InvShared(s: State) {
    InvLock(s) && InvRefresher(s) && InvChannels(s) && InvData(s) && InvClock(s) && InvSettled(s)
  }

  predicate Inv(s: State) {
    InvShared(s) && InvOrder(s) && InvStale(s.log) && forall t | 0 <= t < |s.threads| :: GoodThread(s, t)
  }

  // ----- What every step extends -----

  function CallOf(pc: Pc): Option<Call> {
    match pc
    case Refreshing(_, Caller(call)) => Some(call)
    case StoreValue(_, Caller(call), _) => Some(call)
    case ReadNow(_, Caller(call), _) => Some(call)
    case StoreExpiry(_, Caller(call), _, _) => Some(call)
    case CleanupLock(_, Caller(call), _) => Some(call)
    case CleanupSignal(_, Caller(call), _) => Some(call)
    case CleanupUnlock(_, Caller(call), _) => Some(call)
    case LoadValue(call) => Some(call)
    case LoadExpiry(call, _) => Some(call)
    case CheckClock(call, _, _, _) => Some(call)
    case AwaitLock(call) => Some(call)
    case ReadFlag(call) => Some(call)
    case ReloadValue(call) => Some(call)
    case ReloadExpiry(call, _) => Some(call)
    case Decide(call, _, _) => Some(call)
    case Blocked(call, _) => Some(call)
    case LoadAfterWait(call, _) => Some(call)
    case Returned(call, _, _) => Some(call)
    case _ => None
  }

  predicate RefreshExtends(r: Refresh, r': Refresh) {
    && r'.(outcome := r.outcome) == r
    && (Settled(r.outcome) ==> r'.outcome == r.outcome)
    && (Published(r.outcome) ==> Published(r'.outcome) && r'.outcome.value == r.outcome.value)
  }

  predicate LogExtends(s: State, s': State) {
    && |s.log| <= |s'.log|
    && forall g | 0 <= g < |s.log| :: RefreshExtends(s.log[g], s'.log[g])
  }

  predicate ThreadsExtend(s: State, s': State) {
    && |s.threads| <= |s'.threads|
    && (forall t | 0 <= t < |s.threads| :: CallOf(s'.threads[t]) == CallOf(s.threads[t]))
    && (forall t | 0 <= t < |s.threads| && Finished(s.threads[t]) :: s'.threads[t] == s.threads[t])
  }

  predicate DataExtends(s: State, s': State) {
    && s.data.Keys <= s'.data.Keys
    && forall k | k in s.data :: s.data[k].gen <= s'.data[k].gen
  }

  predicate ClosesExtend(s: State, s': State) {
    |s.closes| <= |s'.closes| && forall g | 0 <= g < |s.closes| :: s.closes[g] <= s'.closes[g]
  }

  predicate Extends(s: State, s': State) {
    && s'.period == s.period && s'.firstExpiry == s.firstExpiry && s.clock <= s'.clock
    && LogExtends(s, s') && ThreadsExtend(s, s') && DataExtends(s, s') && ClosesExtend(s, s')
  }

  lemma ExtendsTransitive(a: State, b: State, c: State)
    requires Extends(a, b) && Extends(b, c)
    ensures Extends(a, c)
  {
  }

  // ----- Preservation of the invariant, one kind of step at a time -----

  lemma GenuineStable(s: State, s': State, key: Key, e: Entry)
    requires Genuine(s, key, e) && LogExtends(s, s')
    ensures Genuine(s', key, e)
  {
  }

  lemma SettledPrefixStable(s: State, s': State, upto: nat)
    requires LogExtends(s, s') && upto <= |s.log| && AllSettled(s.log[..upto])
    ensures s'.log[..upto] == s.log[..upto]
  {
    forall g | 0 <= g < upto ensures s'.log[g] == s.log[g] {
      assert s.log[..upto][g] == s.log[g] && RefreshExtends(s.log[g], s'.log[g]);
    }
  }

  lemma InForceStable(s: State, s': State, expiry: int, upto: nat)
    requires InForce(s, expiry, upto) && LogExtends(s, s') && s'.period == s.period && s'.firstExpiry == s.firstExpiry
    ensures InForce(s', expiry, upto) && s'.log[..upto] == s.log[..upto]
  {
    SettledPrefixStable(s, s', upto);
  }

  /** The expiry stored is the one in force after the settled refreshes. */
  lemma ExpiryInForce(s: State)
    requires InvClock(s) && InvSettled(s)
    ensures InForce(s, s.expiry, SettledCount(s.log))
  {
    var n := SettledCount(s.log);
    assert n == |s.log| ==> s.log[..n] == s.log;
  }

  /** After its refresh settled a waiter finds that refresh's value or a newer one, or what it had found cached. */
  lemma WaiterFinds(s: State, key: Key, chan: nat)
    requires InvData(s) && InvOrder(s) && InvStale(s.log)
    requires chan < |s.log| && Settled(s.log[chan].outcome) && s.log[chan].key == key
    ensures WaiterResult(s.log[chan], chan, Lookup(s.data, key))
    ensures Lookup(s.data, key) == s.log[chan].stale <==> s.log[chan].outcome.Failed? && NewestIn(s.log, key, chan)
  {
    var found, stale := Lookup(s.data, key), s.log[chan].stale;
    if found.Some? {
      assert Genuine(s, key, found.value);
      if stale.Some? {
        assert GenuineIn(s.log, key, stale.value);
      }
    }
  }

  /** A thread that did not move stays good if what it relies on did not change. */
  lemma BystanderStaysGood(s: State, s': State, t: nat)
    requires t < |s.threads| && t < |s'.threads| && s'.threads[t] == s.threads[t]
    requires GoodThread(s, t) && Extends(s, s')
    requires HoldsLock(s.threads[t]) && !s.inProgress ==>
      && s'.inProgress == s.inProgress && s'.data == s.data
      && s'.expiry == s.expiry
    requires Live(s.threads[t]) ==> s'.log == s.log && s'.data == s.data
    ensures GoodThread(s', t)
  {
    var pc := s.threads[t];
    if pc.CheckClock? {
      InForceStable(s, s', pc.expiry, pc.upto);
    } else if pc.Returned? && (pc.how.Fast? || pc.how.Recheck?) {
      InForceStable(s, s', pc.how.expiry, pc.how.upto);
    }
    hide InForce;
  }

  lemma NewestAtDecision(s: State, key: Key)
    requires InvData(s) && InvSettled(s)
    ensures !s.inProgress ==> SettledCount(s.log) == |s.log|
    ensures key in s.data ==> NewestIn(s.log[..|s.log|], key, s.data[key].gen)
  {
    assert s.log[..|s.log|] == s.log;
    if key in s.data {
      assert Genuine(s, key, s.data[key]);
    }
  }

  lemma LoadExpiryGood(s: State, t: nat, reply: Option<Value>)
    requires InvClock(s) && InvSettled(s)
    requires t < |s.threads| && s.threads[t].LoadExpiry? && GoodThread(s, t)
    ensures GoodThread(RunThread(s, t, reply), t)
  {
    ExpiryInForce(s);
    InForceUnmoved(s, RunThread(s, t, reply), s.expiry, SettledCount(s.log));
    hide InForce, SettledCount, InvClock, InvSettled;
  }

  lemma InForceUnmoved(s: State, s': State, expiry: int, upto: nat)
    requires InForce(s, expiry, upto)
    requires s'.log == s.log && s'.period == s.period && s'.firstExpiry == s.firstExpiry
    ensures InForce(s', expiry, upto)
  {
  }

  lemma CheckClockGood(s: State, t: nat, reply: Option<Value>)
    requires t < |s.threads| && s.threads[t].CheckClock? && GoodThread(s, t)
    ensures GoodThread(RunThread(s, t, reply), t)
  {
    InForceUnmoved(s, RunThread(s, t, reply), s.threads[t].expiry, s.threads[t].upto);
    hide InForce;
  }

  lemma RecheckGood(s: State, t: nat, reply: Option<Value>)
    requires InvData(s) && InvClock(s) && InvSettled(s)
    requires t < |s.threads| && s.threads[t].Decide? && IsLocal(s, s.threads[t]) && GoodThread(s, t)
    ensures GoodThread(RunThread(s, t, reply), t)
  {
    var pc := s.threads[t];
    ExpiryInForce(s);
    NewestAtDecision(s, pc.call.key);
    InForceUnmoved(s, RunThread(s, t, reply), s.expiry, SettledCount(s.log));
    assert Genuine(s, pc.call.key, pc.seen.value);
    hide InForce, SettledCount, InvClock, InvSettled, InvData, NewestIn;
  }

  lemma FoundIsGood(s: State, call: Call)
    requires InvData(s) && Bounded(s, call)
    ensures GoodRead(s, call, Lookup(s.data, call.key))
  {
  }

  lemma ClosedIsSettled(s: State, chan: nat)
    requires InvChannels(s) && InvSettled(s) && chan < |s.log| && s.closes[chan] > 0
    ensures Settled(s.log[chan].outcome)
  {
  }

  lemma WokenStep(s: State, t: nat, reply: Option<Value>)
    requires t < |s.threads| && s.threads[t].LoadAfterWait?
    ensures Enabled(s, t)
    ensures var call := s.threads[t].call;
      RunThread(s, t, reply) == Goto(s, t, Returned(call, Lookup(s.data, call.key), Waited(s.threads[t].chan)))
  {
  }

  lemma WokenGood(s: State, t: nat, reply: Option<Value>)
    requires InvData(s) && InvChannels(s) && InvSettled(s) && InvOrder(s) && InvStale(s.log)
    requires t < |s.threads| && s.threads[t].LoadAfterWait? && GoodThread(s, t)
    ensures GoodThread(RunThread(s, t, reply), t)
  {
    var pc := s.threads[t];
    WokenStep(s, t, reply);
    hide InvData, InvChannels, InvSettled, InvOrder, InvStale, WaiterResult, RunThread, Settled, Lookup;
    ClosedIsSettled(s, pc.chan);
    FoundIsGood(s, pc.call);
    if s.log[pc.chan].key == pc.call.key {
      WaiterFinds(s, pc.call.key, pc.chan);
    }
  }

  lemma OtherLocalGood(s: State, t: nat, reply: Option<Value>)
    requires InvShared(s) && Enabled(s, t) && IsLocal(s, s.threads[t]) && GoodThread(s, t)
    requires var pc := s.threads[t]; !pc.LoadExpiry? && !pc.CheckClock? && !pc.Decide? && !pc.LoadAfterWait?
    ensures GoodThread(RunThread(s, t, reply), t)
  {
    hide InvClock, InForce;
  }

  lemma LocalStepGood(s: State, t: nat, reply: Option<Value>)
    requires InvShared(s) && InvOrder(s) && InvStale(s.log)
    requires Enabled(s, t) && IsLocal(s, s.threads[t]) && GoodThread(s, t)
    ensures GoodThread(RunThread(s, t, reply), t)
  {
    hide GoodThread, InvData, InvClock, InvSettled, InvChannels, InvOrder, InvStale, InvLock, InvRefresher, RunThread;
    var pc := s.threads[t];
    if pc.LoadExpiry? {
      LoadExpiryGood(s, t, reply);
    } else if pc.CheckClock? {
      CheckClockGood(s, t, reply);
    } else if pc.Decide? {
      RecheckGood(s, t, reply);
    } else if pc.LoadAfterWait? {
      WokenGood(s, t, reply);
    } else {
      OtherLocalGood(s, t, reply);
    }
  }

  /** A move of thread t that changes only its program counter and perhaps the mutex. */
  predicate CleanMove(s: State, t: nat, pc': Pc, lock': Option<nat>)
    requires t < |s.threads|
  {
    var pc := s.threads[t];
    && !Finished(pc) && CallOf(pc') == CallOf(pc)
    && Live(pc') == Live(pc) && (Live(pc) ==> pc'.gen == pc.gen)
    && (HoldsLock(pc') <==> lock' == Some(t))
    && (if HoldsLock(pc) then lock' in {None, Some(t)}
        else if HoldsLock(pc') then s.lock == None else lock' == s.lock)
  }

  lemma LocalStepMovesCleanly(s: State, t: nat)
    requires InvLock(s) && InvRefresher(s) && Enabled(s, t) && IsLocal(s, s.threads[t]) && GoodThread(s, t)
    ensures CleanMove(s, t, LocalNext(s, s.threads[t]), LocalLock(s, t, s.threads[t]))
  {
  }

  lemma CleanMoveExtends(s: State, t: nat, pc': Pc, lock': Option<nat>)
    requires t < |s.threads| && CleanMove(s, t, pc', lock')
    ensures Extends(s, Goto(s, t, pc').(lock := lock'))
  {
  }

  lemma CleanMoveKeepsShared(s: State, t: nat, pc': Pc, lock': Option<nat>)
    requires InvShared(s) && t < |s.threads| && CleanMove(s, t, pc', lock')
    ensures InvShared(Goto(s, t, pc').(lock := lock'))
  {
    CleanMoveKeepsHistory(s, t, pc', lock');
    CleanMoveKeepsThreads(s, t, pc', lock');
    hide InvLock, InvRefresher, InvChannels, InvData, InvClock, InvSettled, CleanMove;
  }

  lemma CleanMoveKeepsHistory(s: State, t: nat, pc': Pc, lock': Option<nat>)
    requires InvChannels(s) && InvData(s) && InvClock(s) && InvSettled(s) && t < |s.threads|
    ensures var s' := Goto(s, t, pc').(lock := lock'); InvChannels(s') && InvData(s') && InvClock(s') && InvSettled(s')
  {
    var s' := Goto(s, t, pc').(lock := lock');
    forall k | k in s'.data ensures Genuine(s', k, s'.data[k]) { assert Genuine(s, k, s.data[k]); }
  }

  lemma CleanMoveKeepsThreads(s: State, t: nat, pc': Pc, lock': Option<nat>)
    requires InvLock(s) && InvRefresher(s) && t < |s.threads| && CleanMove(s, t, pc', lock')
    ensures var s' := Goto(s, t, pc').(lock := lock'); InvLock(s') && InvRefresher(s')
  {
  }

  lemma CleanMoveKeepsInv(s: State, t: nat, pc': Pc, lock': Option<nat>)
    requires Inv(s) && t < |s.threads| && CleanMove(s, t, pc', lock')
    requires GoodThread(Goto(s, t, pc').(lock := lock'), t)
    ensures Extends(s, Goto(s, t, pc').(lock := lock')) && Inv(Goto(s, t, pc').(lock := lock'))
  {
    var s' := Goto(s, t, pc').(lock := lock');
    CleanMoveExtends(s, t, pc', lock');
    CleanMoveKeepsShared(s, t, pc', lock');
    forall u | 0 <= u < |s'.threads| ensures GoodThread(s', u) {
      if u != t { BystanderStaysGood(s, s', u); }
    }
  }

  lemma BeginRefreshExtends(s: State, t: nat)
    requires t < |s.threads| && s.threads[t].Decide?
    ensures Extends(s, BeginRefresh(s, t, s.threads[t].call, s.threads[t].seen))
  {
  }

  lemma BeginRefreshKeepsFlags(s: State, t: nat)
    requires InvShared(s) && t < |s.threads| && GoodThread(s, t) && s.threads[t].Decide? && !IsLocal(s, s.threads[t])
    ensures var s' := BeginRefresh(s, t, s.threads[t].call, s.threads[t].seen);
            InvLock(s') && InvRefresher(s') && InvChannels(s') && InvSettled(s')
  {
  }

  lemma BeginRefreshKeepsData(s: State, t: nat)
    requires InvData(s) && t < |s.threads| && GoodThread(s, t) && s.threads[t].Decide?
    ensures InvData(BeginRefresh(s, t, s.threads[t].call, s.threads[t].seen))
  {
    var s' := BeginRefresh(s, t, s.threads[t].call, s.threads[t].seen);
    forall k | k in s'.data ensures Genuine(s', k, s'.data[k]) {
      assert Genuine(s, k, s.data[k]);
    }
  }

  lemma ExpiryWithoutSuccess(log: seq<Refresh>, last: Refresh, period: int, first: int)
    requires !last.outcome.Done?
    ensures ExpiryAfter(log + [last], period, first) == ExpiryAfter(log, period, first)
  {
    assert (log + [last])[..|log|] == log;
  }

  lemma BeginRefreshKeepsClock(s: State, t: nat)
    requires InvClock(s) && t < |s.threads| && GoodThread(s, t) && s.threads[t].Decide? && !IsLocal(s, s.threads[t])
    ensures InvClock(BeginRefresh(s, t, s.threads[t].call, s.threads[t].seen))
  {
    var s' := BeginRefresh(s, t, s.threads[t].call, s.threads[t].seen);
    var n := |s.log|;
    assert s'.log == s.log + [s'.log[n]] && s'.log[..n] == s.log;
    ExpiryWithoutSuccess(s.log, s'.log[n], s.period, s.firstExpiry);
    hide ExpiryAfter, GoodThread;
    forall g | 0 <= g < |s'.log| && s'.log[g].stale.Some?
      ensures s'.log[g].start > ExpiryAfter(s'.log[..g], s'.period, s'.firstExpiry)
    {
      if g < n {
        assert s'.log[..g] == s.log[..g];
      }
    }
  }

  lemma BeginRefreshKeepsOrder(s: State, t: nat)
    requires InvData(s) && InvOrder(s) && t < |s.threads| && s.threads[t].Decide? && GoodThread(s, t)
    ensures InvOrder(BeginRefresh(s, t, s.threads[t].call, s.threads[t].seen))
  {
  }

  lemma BeginRefreshKeepsStale(s: State, t: nat)
    requires InvData(s) && InvStale(s.log) && t < |s.threads| && s.threads[t].Decide? && GoodThread(s, t)
    ensures InvStale(BeginRefresh(s, t, s.threads[t].call, s.threads[t].seen).log)
  {
    var pc := s.threads[t];
    if pc.seen.Some? {
      assert Genuine(s, pc.call.key, pc.seen.value);
    }
  }

  lemma BeginRefreshMoverGood(s: State, t: nat)
    requires InvData(s) && t < |s.threads| && s.threads[t].Decide? && !IsLocal(s, s.threads[t]) && GoodThread(s, t)
    ensures var s' := BeginRefresh(s, t, s.threads[t].call, s.threads[t].seen);
            GoodThread(s', t) && (|s'.threads| > |s.threads| ==> GoodThread(s', |s.threads|))
  {
  }

  lemma BeginRefreshKeepsInv(s: State, t: nat)
    requires Inv(s) && t < |s.threads| && s.threads[t].Decide? && !IsLocal(s, s.threads[t])
    ensures var s' := BeginRefresh(s, t, s.threads[t].call, s.threads[t].seen); Extends(s, s') && Inv(s')
  {
    var s' := BeginRefresh(s, t, s.threads[t].call, s.threads[t].seen);
    assert GoodThread(s, t);
    BeginRefreshExtends(s, t);
    BeginRefreshKeepsFlags(s, t);
    BeginRefreshKeepsData(s, t);
    BeginRefreshKeepsClock(s, t);
    BeginRefreshKeepsOrder(s, t);
    BeginRefreshKeepsStale(s, t);
    BeginRefreshMoverGood(s, t);
    hide InvData, InvClock, InvOrder, InvStale, InvChannels, InvSettled;
    forall u | 0 <= u < |s.threads| && u != t ensures GoodThread(s', u) {
      assert !Live(s.threads[u]) && !HoldsLock(s.threads[u]);
      BystanderStaysGood(s, s', u);
    }
  }

  lemma SignalExtends(s: State, t: nat)
    requires t < |s.threads| && s.threads[t].CleanupSignal? && GoodThread(s, t)
    ensures var pc := s.threads[t]; var s' := SignalDone(s, t, pc.gen, pc.role, pc.result);
            Extends(s, s') && GoodThread(s', t)
  {
  }

  lemma SignalKeepsShared(s: State, t: nat)
    requires InvShared(s) && t < |s.threads| && s.threads[t].CleanupSignal? && GoodThread(s, t)
    ensures var pc := s.threads[t]; InvShared(SignalDone(s, t, pc.gen, pc.role, pc.result))
  {
  }

  lemma SignalKeepsInv(s: State, t: nat)
    requires Inv(s) && t < |s.threads| && s.threads[t].CleanupSignal?
    ensures var pc := s.threads[t]; var s' := SignalDone(s, t, pc.gen, pc.role, pc.result); Extends(s, s') && Inv(s')
  {
    var pc := s.threads[t];
    var s' := SignalDone(s, t, pc.gen, pc.role, pc.result);
    SignalExtends(s, t);
    SignalKeepsShared(s, t);
    forall u | 0 <= u < |s'.threads| ensures GoodThread(s', u) {
      if u != t { BystanderStaysGood(s, s', u); }
    }
  }

  lemma RefresherShape(s: State, t: nat, reply: Option<Value>)
    requires InvRefresher(s) && t < |s.threads| && AtWork(s.threads[t]) && GoodThread(s, t)
    ensures var pc := s.threads[t]; var pc' := RefresherNext(s, pc, reply); var o' := NextOutcome(s, pc, reply);
            && pc.gen == pc'.gen == |s.log| - 1 && s.inProgress && CallOf(pc') == CallOf(pc)
            && Live(pc') && !HoldsLock(pc') && !HoldsLock(pc) && !Finished(pc)
            && RefreshExtends(s.log[pc.gen], s.log[pc.gen].(outcome := o'))
            && !s.log[pc.gen].outcome.Done?
  {
  }

  lemma RefresherStepExtends(s: State, t: nat, reply: Option<Value>)
    requires InvShared(s) && t < |s.threads| && AtWork(s.threads[t]) && GoodThread(s, t)
    ensures Extends(s, RefresherStep(s, t, reply))
  {
    RefresherShape(s, t, reply);
  }

  lemma RefresherStepKeepsFlags(s: State, t: nat, reply: Option<Value>)
    requires InvShared(s) && t < |s.threads| && AtWork(s.threads[t]) && GoodThread(s, t)
    ensures var s' := RefresherStep(s, t, reply);
            InvLock(s') && InvRefresher(s') && InvChannels(s') && InvSettled(s') && GoodThread(s', t)
  {
  }

  lemma StoreValueKeepsData(s: State, t: nat, reply: Option<Value>)
    requires InvRefresher(s) && InvData(s) && t < |s.threads| && s.threads[t].StoreValue? && GoodThread(s, t)
    requires LogExtends(s, RefresherStep(s, t, reply))
    ensures InvData(RefresherStep(s, t, reply))
  {
    var s' := RefresherStep(s, t, reply);
    assert Live(s.threads[t]);
    forall k | k in s'.data ensures Genuine(s', k, s'.data[k]) {
      if k in s.data && s'.data[k] == s.data[k] { GenuineStable(s, s', k, s.data[k]); }
    }
  }

  lemma OtherWorkKeepsData(s: State, t: nat, reply: Option<Value>)
    requires InvRefresher(s) && InvData(s) && t < |s.threads| && AtWork(s.threads[t]) && GoodThread(s, t)
    requires !s.threads[t].StoreValue? && LogExtends(s, RefresherStep(s, t, reply))
    ensures InvData(RefresherStep(s, t, reply))
  {
    var s' := RefresherStep(s, t, reply);
    assert Live(s.threads[t]);
    forall k | k in s'.data ensures Genuine(s', k, s'.data[k]) {
      GenuineStable(s, s', k, s.data[k]);
    }
  }

  lemma RefresherStepKeepsData(s: State, t: nat, reply: Option<Value>)
    requires InvShared(s) && t < |s.threads| && AtWork(s.threads[t]) && GoodThread(s, t)
    ensures InvData(RefresherStep(s, t, reply))
  {
    RefresherStepExtends(s, t, reply);
    hide InvClock, InvLock, InvChannels, InvSettled, InvData, InvRefresher, GoodThread, RefresherStep, LogExtends;
    if s.threads[t].StoreValue? {
      StoreValueKeepsData(s, t, reply);
    } else {
      OtherWorkKeepsData(s, t, reply);
    }
  }

  lemma RefresherStepKeepsClock(s: State, t: nat, reply: Option<Value>)
    requires InvShared(s) && t < |s.threads| && AtWork(s.threads[t]) && GoodThread(s, t)
    ensures InvClock(RefresherStep(s, t, reply))
  {
  }

  lemma RefresherStepKeepsInv(s: State, t: nat, reply: Option<Value>)
    requires Inv(s) && t < |s.threads| && AtWork(s.threads[t])
    ensures var s' := RefresherStep(s, t, reply); Extends(s, s') && Inv(s')
  {
    var s' := RefresherStep(s, t, reply);
    RefresherStepExtends(s, t, reply);
    RefresherStepKeepsFlags(s, t, reply);
    RefresherStepKeepsData(s, t, reply);
    RefresherStepKeepsClock(s, t, reply);
    forall u | 0 <= u < |s'.threads| ensures GoodThread(s', u) {
      if u != t {
        assert GoodThread(s, u) && !Live(s.threads[u]);
        BystanderStaysGood(s, s', u);
      }
    }
  }

  lemma ArrivalKeepsShared(s: State, step: Step)
    requires InvShared(s) && !step.Run?
    ensures Extends(s, Apply(s, step)) && InvShared(Apply(s, step))
  {
  }

  lemma ArrivalKeepsInv(s: State, step: Step)
    requires Inv(s) && !step.Run?
    ensures Extends(s, Apply(s, step)) && Inv(Apply(s, step))
  {
    var s' := Apply(s, step);
    ArrivalKeepsShared(s, step);
    forall u | 0 <= u < |s'.threads| ensures GoodThread(s', u) {
      if u < |s.threads| { BystanderStaysGood(s, s', u); }
    }
  }

  /** The inductive invariant: every step of every thread keeps it and only extends history. */
  lemma StepKeepsInv(s: State, step: Step)
    requires Inv(s) && Allowed(s, step)
    ensures Extends(s, Apply(s, step)) && Inv(Apply(s, step))
  {
    if !step.Run? {
      ArrivalKeepsInv(s, step);
    } else {
      var t := step.t;
      var pc := s.threads[t];
      if IsLocal(s, pc) {
        LocalStepGood(s, t, step.reply);
        LocalStepMovesCleanly(s, t);
        CleanMoveKeepsInv(s, t, LocalNext(s, pc), LocalLock(s, t, pc));
      } else if pc.Decide? {
        BeginRefreshKeepsInv(s, t);
      } else if pc.CleanupSignal? {
        SignalKeepsInv(s, t);
      } else {
        RefresherStepKeepsInv(s, t, step.reply);
      }
    }
  }

  lemma InitHasInv(s: State)
    requires Init(s)
    ensures Inv(s)
  {
  }

  lemma {:induction false} InvThroughout(e: Execution, i: nat)
    requires Reachable(e) && i < |e.states|
    ensures Inv(e.states[i])
  {
    if i == 0 {
      InitHasInv(e.states[0]);
    } else {
      InvThroughout(e, i - 1);
      StepKeepsInv(e.states[i - 1], e.steps[i - 1]);
    }
  }

  lemma ExtendsReflexive(s: State)
    ensures Extends(s, s)
  {
  }

  lemma {:induction false} HistoryGrows(e: Execution, i: nat, j: nat)
    requires Reachable(e) && i <= j < |e.states|
    ensures Extends(e.states[i], e.states[j])
  {
    if i == j {
      ExtendsReflexive(e.states[i]);
    } else {
      HistoryGrows(e, i, j - 1);
      InvThroughout(e, j - 1);
      StepKeepsInv(e.states[j - 1], e.steps[j - 1]);
      ExtendsTransitive(e.states[i], e.states[j - 1], e.states[j]);
    }
  }

  // ----- Single flight -----

  /** The refresh that made channel `chan` is between its start and its cleanup. */
  predicate InFlight(s: State, chan: nat) {
    && chan < |s.log| && s.log[chan].owner < |s.threads|
    && Live(s.threads[s.log[chan].owner]) && s.threads[s.log[chan].owner].gen == chan
  }

  /**
   At most one refresh is in flight although the mutex is free while it runs; the flag is up exactly
   while a refresh is between its start and its cleanup; no channel is closed twice.
   */
  lemma SingleFlight(e: Execution, i: nat)
    requires Reachable(e) && i < |e.states|
    ensures var s := e.states[i];
            && (forall t, u | 0 <= t < |s.threads| && 0 <= u < |s.threads| && Live(s.threads[t])
                && Live(s.threads[u]) :: t == u)
            && (s.inProgress <==> exists t :: 0 <= t < |s.threads| && Live(s.threads[t]))
            && |s.closes| == |s.log|
            && (forall g | 0 <= g < |s.log| ::
                  s.closes[g] ==
                    if exists t :: 0 <= t < |s.threads| && Live(s.threads[t]) && s.threads[t].gen == g then 0 else 1)
  {
    InvThroughout(e, i);
    var s := e.states[i];
    if s.inProgress {
      var t := s.log[|s.log| - 1].owner;
      assert Live(s.threads[t]) && s.threads[t].gen == |s.log| - 1;
    }
  }

  // ----- No lost wake-up, no deadlock, and termination -----

  /** A waiter's channel is closed, or it is the channel of the refresh now in flight, whose owner can run or waits
      for a mutex whose holder can. */
  lemma NoLostWakeup(e: Execution, i: nat, t: nat)
    requires Reachable(e) && i < |e.states| && t < |e.states[i].threads| && e.states[i].threads[t].Blocked?
    ensures var s := e.states[i]; var chan := s.threads[t].chan;
            || Enabled(s, t)
            || (InFlight(s, chan) && (Enabled(s, s.log[chan].owner) || (s.lock.Some? && Enabled(s, s.lock.value))))
  {
    InvThroughout(e, i);
    BlockedWaiter(e.states[i], t);
  }

  lemma BlockedWaiter(s: State, t: nat)
    requires InvLock(s) && InvRefresher(s) && InvChannels(s)
    requires t < |s.threads| && s.threads[t].Blocked? && GoodThread(s, t)
    ensures var chan := s.threads[t].chan;
            || Enabled(s, t)
            || (InFlight(s, chan) && (Enabled(s, s.log[chan].owner) || (s.lock.Some? && Enabled(s, s.lock.value))))
  {
  }

  /** While any call or goroutine is unfinished, some thread can move. */
  lemma NoDeadlock(e: Execution, i: nat, t: nat)
    requires Reachable(e) && i < |e.states|
    requires t < |e.states[i].threads| && !Finished(e.states[i].threads[t])
    ensures exists u :: Enabled(e.states[i], u)
  {
    var s := e.states[i];
    InvThroughout(e, i);
    assert GoodThread(s, t);
    if s.lock.Some? {
      assert Enabled(s, s.lock.value);
    } else if s.threads[t].Blocked? {
      NoLostWakeup(e, i, t);
    } else {
      assert Enabled(s, t);
    }
  }

  /** How many of its own steps a thread may still take, counting the goroutine it may start. */
  function Rank(pc: Pc): nat {
    match pc
    case LoadValue(_) => 15
    case LoadExpiry(_, _) => 14
    case CheckClock(_, _, _, _) => 13
    case AwaitLock(_) => 12
    case ReadFlag(_) => 11
    case ReloadValue(_) => 10
    case ReloadExpiry(_, _) => 9
    case Decide(_, _, _) => 8
    case Refreshing(_, _) => 7
    case StoreValue(_, _, _) => 6
    case ReadNow(_, _, _) => 5
    case StoreExpiry(_, _, _, _) => 4
    case CleanupLock(_, _, _) => 3
    case CleanupSignal(_, _, _) => 2
    case CleanupUnlock(_, _, _) => 1
    case Blocked(_, _) => 2
    case LoadAfterWait(_, _) => 1
    case Returned(_, _, _) => 0
    case Exited => 0
  }

  function TotalRank(threads: seq<Pc>): nat {
    if threads == [] then 0 else TotalRank(threads[..|threads| - 1]) + Rank(threads[|threads| - 1])
  }

  lemma {:induction false} TotalRankUpdate(threads: seq<Pc>, t: nat, pc: Pc)
    requires t < |threads|
    ensures TotalRank(threads[t := pc]) == TotalRank(threads) - Rank(threads[t]) + Rank(pc)
  {
    var n := |threads| - 1;
    if t == n {
      assert threads[t := pc][..n] == threads[..n];
    } else {
      assert threads[t := pc][..n] == threads[..n][t := pc];
      TotalRankUpdate(threads[..n], t, pc);
    }
  }

  lemma LocalRankFalls(s: State, pc: Pc)
    requires IsLocal(s, pc)
    ensures Rank(LocalNext(s, pc)) < Rank(pc)
  {
  }

  lemma OwnRankFalls(s: State, t: nat, reply: Option<Value>)
    requires Enabled(s, t)
    ensures var s' := RunThread(s, t, reply);
            && |s.threads| <= |s'.threads| && Rank(s'.threads[t]) < Rank(s.threads[t])
            && (forall u | 0 <= u < |s.threads| && u != t :: s'.threads[u] == s.threads[u])
  {
    if IsLocal(s, s.threads[t]) {
      LocalRankFalls(s, s.threads[t]);
    }
  }

  /** A step changes its own thread and at most adds the goroutine it starts. */
  lemma ThreadsAfter(s: State, t: nat, reply: Option<Value>)
    requires Enabled(s, t)
    ensures var s' := RunThread(s, t, reply);
            && |s.threads| <= |s'.threads| && Rank(s'.threads[t]) < Rank(s.threads[t])
            && var moved := s.threads[t := s'.threads[t]];
               s'.threads == moved
               || (s.threads[t].Decide? && s'.threads[t].Returned?
                   && s'.threads == moved + [Refreshing(|s.log|, Background)])
  {
    OwnRankFalls(s, t, reply);
    var s' := RunThread(s, t, reply);
    if |s'.threads| == |s.threads| {
      assert s'.threads == s.threads[t := s'.threads[t]];
    }
  }

  lemma TotalRankOneMore(threads: seq<Pc>, pc: Pc)
    ensures TotalRank(threads + [pc]) == TotalRank(threads) + Rank(pc)
  {
    assert (threads + [pc])[..|threads|] == threads;
  }

  /** Every step of every thread, whatever refreshFunc answers, uses up some of the total rank. */
  lemma ThreadStepLowersRank(s: State, t: nat, reply: Option<Value>)
    requires Enabled(s, t)
    ensures TotalRank(RunThread(s, t, reply).threads) < TotalRank(s.threads)
  {
    ThreadsAfter(s, t, reply);
    hide RunThread, TotalRank, Enabled;
    var s' := RunThread(s, t, reply);
    var moved := s.threads[t := s'.threads[t]];
    TotalRankUpdate(s.threads, t, s'.threads[t]);
    if s'.threads != moved {
      TotalRankOneMore(moved, Refreshing(|s.log|, Background));
    }
  }

  function ThreadSteps(steps: seq<Step>): nat {
    if steps == [] then 0 else ThreadSteps(steps[..|steps| - 1]) + if steps[|steps| - 1].Run? then 1 else 0
  }

  lemma ThreadStepsOneMore(steps: seq<Step>, n: nat)
    requires n < |steps|
    ensures ThreadSteps(steps[..n + 1]) == ThreadSteps(steps[..n]) + if steps[n].Run? then 1 else 0
  {
    assert steps[..n + 1][..n] == steps[..n];
  }

  /** Without new calls, an execution takes at most TotalRank thread steps, so with NoDeadlock every pending call
      returns. */
  lemma CallsReturn(e: Execution)
    requires IsExecution(e) && (forall i | 0 <= i < |e.steps| :: !e.steps[i].StartCall?)
    ensures ThreadSteps(e.steps) + TotalRank(e.states[|e.steps|].threads) <= TotalRank(e.states[0].threads)
  {
    hide ThreadSteps, TotalRank;
    CallsReturnUpTo(e, |e.steps|);
    assert e.steps[..|e.steps|] == e.steps;
  }

  lemma {:induction false} CallsReturnUpTo(e: Execution, n: nat)
    requires IsExecution(e) && n <= |e.steps| && (forall i | 0 <= i < |e.steps| :: !e.steps[i].StartCall?)
    ensures ThreadSteps(e.steps[..n]) + TotalRank(e.states[n].threads) <= TotalRank(e.states[0].threads)
  {
    if n > 0 {
      CallsReturnUpTo(e, n - 1);
      ThreadStepsOneMore(e.steps, n - 1);
      hide ThreadSteps, TotalRank, Enabled, RunThread;
      var s, step := e.states[n - 1], e.steps[n - 1];
      assert Allowed(s, step) && e.states[n] == Apply(s, step);
      if step.Run? {
        ThreadStepLowersRank(s, step.t, step.reply);
      }
    }
  }

  /** What stands between a waiter on `chan` and its wake-up. */
  function WaiterRank(s: State, chan: nat): nat {
    if InFlight(s, chan) then Rank(s.threads[s.log[chan].owner]) else 0
  }

  lemma LiveRankPositive(s: State, chan: nat)
    requires InFlight(s, chan)
    ensures WaiterRank(s, chan) > 0
  {
  }

  lemma SettledWaiter(s: State, s': State, chan: nat)
    requires InvRefresher(s) && InvChannels(s) && InvRefresher(s') && InvChannels(s') && LogExtends(s, s')
        && ClosesExtend(s, s')
    requires chan < |s.log| && !InFlight(s, chan)
    ensures s.closes[chan] == 1 && !InFlight(s', chan)
  {
  }

  lemma PendingWaiter(s: State, step: Step, chan: nat)
    requires Allowed(s, step) && InFlight(s, chan) && LogExtends(s, Apply(s, step))
    ensures var s' := Apply(s, step);
            && WaiterRank(s', chan) <= WaiterRank(s, chan)
            && (step.Run? && step.t == s.log[chan].owner ==> WaiterRank(s', chan) < WaiterRank(s, chan))
  {
    var s' := Apply(s, step);
    assert RefreshExtends(s.log[chan], s'.log[chan]);
    if step.Run? {
      OwnRankFalls(s, step.t, step.reply);
    }
  }

  /** New calls and other threads never push a waiter back, the refresher's own steps bring it nearer, and at rank
      zero its channel is closed. */
  lemma WaiterNeverPushedBack(e: Execution, i: nat, chan: nat)
    requires Reachable(e) && i < |e.steps| && chan < |e.states[i].log|
    ensures var s, s', step := e.states[i], e.states[i + 1], e.steps[i];
            && WaiterRank(s', chan) <= WaiterRank(s, chan)
            && (step.Run? && step.t == s.log[chan].owner && InFlight(s, chan) ==>
                WaiterRank(s', chan) < WaiterRank(s, chan))
            && (WaiterRank(s, chan) == 0 ==> chan < |s.closes| && s.closes[chan] == 1)
  {
    InvThroughout(e, i);
    InvThroughout(e, i + 1);
    HistoryGrows(e, i, i + 1);
    hide InvClock, InvData, InvOrder, InvLock, InvSettled, GoodThread, ThreadsExtend, DataExtends, Apply, Enabled;
    hide InvRefresher, InvChannels, InvStale, LogExtends, ClosesExtend, InFlight, Rank;
    if InFlight(e.states[i], chan) {
      LiveRankPositive(e.states[i], chan);
      PendingWaiter(e.states[i], e.steps[i], chan);
    } else {
      SettledWaiter(e.states[i], e.states[i + 1], chan);
    }
  }

  // ----- What the calls return -----

  /** Every ok result was fetched by a successful refresh of that key. */
  lemma ResultsAreGenuine(e: Execution, i: nat, t: nat)
    requires Reachable(e) && i < |e.states| && t < |e.states[i].threads|
    requires e.states[i].threads[t].Returned? && e.states[i].threads[t].result.Some?
    ensures var s := e.states[i]; var r := s.threads[t];
            && r.result.value.gen < |s.log|
            && s.log[r.result.value.gen].key == r.call.key
            && !s.log[r.result.value.gen].outcome.Running? && !s.log[r.result.value.gen].outcome.Failed?
            && s.log[r.result.value.gen].outcome.value == r.result.value.value
  {
    InvThroughout(e, i);
    assert GoodThread(e.states[i], t);
  }

  /** A call keeps its identity, and with it the generation cached when it began. */
  lemma CallBeganWith(e: Execution, i: nat, j: nat, t: nat)
    requires Reachable(e) && i < j < |e.states|
    requires |e.states[i].threads| <= t < |e.states[j].threads|
    requires CallOf(e.states[j].threads[t]).Some?
    ensures CallOf(e.states[j].threads[t]).value.floor >= GenOf(e.states[i], CallOf(e.states[j].threads[t]).value.key)
    decreases j - i
  {
    var s := e.states[i];
    var s1 := e.states[i + 1];
    HistoryGrows(e, i, i + 1);
    HistoryGrows(e, i + 1, j);
    if t < |s1.threads| {
      InvThroughout(e, i);
      NewcomerIsACall(s, e.steps[i], t);
    } else {
      CallBeganWith(e, i + 1, j, t);
    }
  }

  lemma NewcomerIsACall(s: State, step: Step, t: nat)
    requires Inv(s) && Allowed(s, step) && |s.threads| <= t < |Apply(s, step).threads|
    ensures var pc := Apply(s, step).threads[t];
            (pc.LoadValue? && pc.call.floor == GenOf(s, pc.call.key)) || (pc.Refreshing? && pc.role.Background?)
  {
  }

  /**
   Reads of a key never go back: once any call has returned a value for the key, every call that begins
   later returns a value too, from the same refresh or a newer one.
   */
  lemma MonotoneReads(e: Execution, i: nat, j: nat, t: nat, u: nat)
    requires Reachable(e) && i < j < |e.states|
    requires t < |e.states[i].threads| <= u < |e.states[j].threads|
    requires e.states[i].threads[t].Returned? && e.states[i].threads[t].result.Some?
    requires e.states[j].threads[u].Returned? && e.states[j].threads[u].call.key == e.states[i].threads[t].call.key
    ensures var later := e.states[j].threads[u].result;
            later.Some? && later.value.gen >= e.states[i].threads[t].result.value.gen
  {
    InvThroughout(e, i);
    InvThroughout(e, j);
    assert GoodThread(e.states[i], t);
    assert GoodThread(e.states[j], u);
    CallBeganWith(e, i, j, u);
  }

  /** A call that waited: on a refresh of its own key it gets that refresh's value or a newer one, and nothing only
      if that refresh failed with nothing cached. */
  lemma WaiterGetsTheRefresh(e: Execution, i: nat, t: nat)
    requires Reachable(e) && i < |e.states| && t < |e.states[i].threads|
    requires e.states[i].threads[t].Returned? && e.states[i].threads[t].how.Waited?
    ensures var s := e.states[i]; var r := s.threads[t]; var g := r.how.gen;
            && g < |s.log| && Settled(s.log[g].outcome)
            && (s.log[g].key == r.call.key && s.log[g].outcome.Done? ==> r.result.Some? && r.result.value.gen >= g)
            && (s.log[g].key == r.call.key && r.result.None? ==> s.log[g].outcome.Failed? && s.log[g].stale.None?)
  {
    InvThroughout(e, i);
    assert GoodThread(e.states[i], t);
  }

  /**
   Of the slow-path calls that do not wait, only the initiator of a refresh returns the value that had
   expired when the refresh began: a re-check returns the newest value under the expiry in force, not yet
   passed, and a caller without data returns what its own refresh fetched. A waiter can get the expired
   value too, but only from a refresh that failed.
   */
  lemma StaleWithoutWaitingOnlyToInitiator(e: Execution, i: nat, t: nat)
    requires Reachable(e) && i < |e.states| && t < |e.states[i].threads|
    requires e.states[i].threads[t].Returned? && e.states[i].threads[t].result.Some?
    ensures var s := e.states[i]; var r := s.threads[t];
            match r.how
            case Fast(now, expiry, upto) => now <= expiry && InForce(s, expiry, upto)
            case Recheck(now, expiry, upto) =>
              && now <= expiry && InForce(s, expiry, upto)
              && NewestIn(s.log[..upto], r.call.key, r.result.value.gen)
            case Initiated(g) =>
              && g < |s.log| && s.log[g].caller == t && s.log[g].key == r.call.key && s.log[g].stale == r.result
              && s.log[g].start > ExpiryAfter(s.log[..g], s.period, s.firstExpiry)
            case Waited(g) =>
              && g < |s.log| && Settled(s.log[g].outcome)
              && (s.log[g].key == r.call.key && s.log[g].stale.Some?
                  && r.result.value.gen <= s.log[g].stale.value.gen ==>
                    s.log[g].outcome.Failed? && r.result == s.log[g].stale)
            case Refreshed(g) => g < |s.log| && s.log[g].caller == t && r.result.value.gen == g
  {
    InvThroughout(e, i);
    var s := e.states[i];
    assert GoodThread(s, t);
    var how := s.threads[t].how;
    if how.Waited? && s.log[how.gen].stale.Some? {
      assert s.log[how.gen].stale.value.gen < how.gen;
    }
  }

  /**
   A waiter on a refresh of its own key comes back with what that refresh had found cached, expired or
   absent, if and only if the refresh failed and no later one has published a value by then.
   */
  lemma WaiterGetsStaleIff(e: Execution, i: nat, t: nat)
    requires Reachable(e) && i < |e.steps| && e.steps[i].Run? && e.steps[i].t == t
    requires t < |e.states[i].threads| && e.states[i].threads[t].LoadAfterWait?
    requires var s := e.states[i]; var pc := s.threads[t];
      pc.chan < |s.log| && s.log[pc.chan].key == pc.call.key
    ensures var s := e.states[i]; var pc := s.threads[t];
      && t < |e.states[i + 1].threads|
      && e.states[i + 1].threads[t] == Returned(pc.call, Lookup(s.data, pc.call.key), Waited(pc.chan))
      && (Lookup(s.data, pc.call.key) == s.log[pc.chan].stale
          <==> s.log[pc.chan].outcome.Failed? && NewestIn(s.log, pc.call.key, pc.chan))
  {
    InvThroughout(e, i);
    var s := e.states[i];
    assert GoodThread(s, t) && Allowed(s, e.steps[i]) && e.states[i + 1] == Apply(s, e.steps[i]);
    WaiterFinds(s, s.threads[t].call.key, s.threads[t].chan);
  }

  // ----- Refresh rate -----

  /** Successful refreshes of log positions [lo, hi). */
  function Successes(log: seq<Refresh>, lo: nat, hi: nat): nat
    requires lo <= hi <= |log|
  {
    if lo == hi then 0 else Successes(log, lo, hi - 1) + if log[hi - 1].outcome.Done? then 1 else 0
  }

  predicate RateLaw(log: seq<Refresh>, period: int, first: int) {
    && (forall g | 0 <= g < |log| && log[g].stale.Some? :: log[g].start > ExpiryAfter(log[..g], period, first))
    && (forall g | 0 <= g < |log| && log[g].outcome.Done? :: log[g].start <= log[g].outcome.now)
  }

  /** The least expiry that the successes of log positions [lo, hi) leave behind. */
  function Floor(log: seq<Refresh>, period: int, lo: nat, hi: nat): int
    requires lo < hi <= |log| && log[lo].outcome.Done?
  {
    if hi == lo + 1 then log[lo].outcome.now + period
    else Floor(log, period, lo, hi - 1) + if log[hi - 1].outcome.Done? then period else 0
  }

  lemma {:induction false} FloorCountsSuccesses(log: seq<Refresh>, period: int, lo: nat, hi: nat)
    requires lo < hi <= |log| && log[lo].outcome.Done?
    ensures Floor(log, period, lo, hi) == log[lo].outcome.now + Successes(log, lo, hi) * period
  {
    if hi == lo + 1 {
      assert Successes(log, lo, hi) == 1;
    } else {
      FloorCountsSuccesses(log, period, lo, hi - 1);
    }
  }

  lemma ExpiryStep(log: seq<Refresh>, period: int, first: int, g: nat)
    requires g < |log|
    ensures ExpiryAfter(log[..g + 1], period, first)
      == if log[g].outcome.Done? then log[g].outcome.now + period else ExpiryAfter(log[..g], period, first)
  {
    assert log[..g + 1][..g] == log[..g];
  }

  lemma SuccessAfterExpiry(log: seq<Refresh>, period: int, first: int, g: nat)
    requires RateLaw(log, period, first) && g < |log| && log[g].stale.Some? && log[g].outcome.Done?
    ensures log[g].outcome.now > ExpiryAfter(log[..g], period, first)
  {
  }

  lemma FloorStep(log: seq<Refresh>, period: int, lo: nat, last: nat)
    requires lo < last < |log| && log[lo].outcome.Done?
    ensures Floor(log, period, lo, last + 1)
      == Floor(log, period, lo, last) + if log[last].outcome.Done? then period else 0
  {
  }

  lemma {:induction false} ExpiryBoundedBySuccesses(log: seq<Refresh>, period: int, first: int, lo: nat, hi: nat)
    requires RateLaw(log, period, first) && lo < hi <= |log| && log[lo].outcome.Done?
    requires forall g | lo < g < hi :: log[g].stale.Some?
    ensures ExpiryAfter(log[..hi], period, first) >= Floor(log, period, lo, hi)
    decreases hi
  {
    var last := hi - 1;
    ExpiryStep(log, period, first, last);
    if last == lo {
      hide ExpiryAfter, RateLaw;
    } else {
      FloorStep(log, period, lo, last);
      assert log[last].stale.Some?;
      if log[last].outcome.Done? {
        SuccessAfterExpiry(log, period, first, last);
      }
      hide ExpiryAfter, RateLaw, Floor;
      ExpiryBoundedBySuccesses(log, period, first, lo, last);
    }
  }

  predicate OneKey(log: seq<Refresh>, key: Key) {
    forall g | 0 <= g < |log| :: log[g].key == key
  }

  /**
   In a cache used with one key, a refresh begins more than one period per earlier success after the
   first of them stamped its expiry, so k consecutive successes span more than k - 1 periods.
   */
  lemma RefreshRate(e: Execution, i: nat, key: Key, lo: nat, hi: nat)
    requires Reachable(e) && i < |e.states| && OneKey(e.states[i].log, key)
    requires lo < hi < |e.states[i].log| && e.states[i].log[lo].outcome.Done?
    ensures var log := e.states[i].log;
            && log[hi].start > log[lo].outcome.now + Successes(log, lo, hi) * e.states[0].period
            && (log[hi].outcome.Done? ==> log[hi].outcome.now >= log[hi].start)
  {
    InvThroughout(e, i);
    HistoryGrows(e, 0, i);
    RefreshRateInState(e.states[i], key, lo, hi);
  }

  lemma RefreshRateInState(s: State, key: Key, lo: nat, hi: nat)
    requires InvClock(s) && InvOrder(s) && OneKey(s.log, key) && lo < hi < |s.log| && s.log[lo].outcome.Done?
    ensures s.log[hi].start > s.log[lo].outcome.now + Successes(s.log, lo, hi) * s.period
    ensures s.log[hi].outcome.Done? ==> s.log[hi].outcome.now >= s.log[hi].start
  {
    assert forall g | lo < g <= hi :: s.log[g].stale.Some?;
    ExpiryBoundedBySuccesses(s.log, s.period, s.firstExpiry, lo, hi);
    FloorCountsSuccesses(s.log, s.period, lo, hi);
  }

  /** Without the one-key restriction: a refresh that finds a value cached begins after the expiry the last success
      stored. */
  lemma NoEarlyRefresh(e: Execution, i: nat, g: nat)
    requires Reachable(e) && i < |e.states| && g < |e.states[i].log| && e.states[i].log[g].stale.Some?
    ensures var s := e.states[i]; s.log[g].start > ExpiryAfter(s.log[..g], s.period, s.firstExpiry)
  {
    InvThroughout(e, i);
  }

  /** From the start of a refresh that fails until the next one begins, data and expiry stay as they were. */
  lemma {:induction false} FailedRefreshChangesNothing(e: Execution, i: nat, j: nat)
    requires Reachable(e) && i < j < |e.states|
    requires |e.states[i].log| < |e.states[i + 1].log| == |e.states[j].log|
    requires e.states[j].log[|e.states[i].log|].outcome.Failed?
    ensures e.states[j].data == e.states[i].data && e.states[j].expiry == e.states[i].expiry
  {
    InvThroughout(e, i);
    BeginOnly(e.states[i], e.steps[i]);
    QuietUntilSettled(e, i + 1, j);
  }

  lemma BeginOnly(s: State, step: Step)
    requires Inv(s) && Allowed(s, step) && |Apply(s, step).log| > |s.log|
    ensures var s' := Apply(s, step);
            s'.data == s.data && s'.expiry == s.expiry && |s'.log| == |s.log| + 1 && s'.log[|s.log|].outcome.Running?
  {
  }

  predicate Unsuccessful(s: State) {
    |s.log| > 0 && (s.log[|s.log| - 1].outcome.Running? || s.log[|s.log| - 1].outcome.Failed?)
  }

  lemma LastStep(e: Execution, i: nat, j: nat)
    requires Reachable(e) && i < j < |e.states|
    ensures Inv(e.states[j - 1]) && Allowed(e.states[j - 1], e.steps[j - 1])
    ensures e.states[j] == Apply(e.states[j - 1], e.steps[j - 1])
    ensures |e.states[i].log| <= |e.states[j - 1].log| <= |e.states[j].log|
  {
    HistoryGrows(e, i, j - 1);
    HistoryGrows(e, j - 1, j);
    InvThroughout(e, j - 1);
  }

  lemma {:induction false} QuietUntilSettled(e: Execution, i: nat, j: nat)
    requires Reachable(e) && i <= j < |e.states|
    requires |e.states[i].log| == |e.states[j].log| && Unsuccessful(e.states[j])
    ensures e.states[j].data == e.states[i].data && e.states[j].expiry == e.states[i].expiry
  {
    if i < j {
      LastStep(e, i, j);
      QuietStep(e.states[j - 1], e.steps[j - 1]);
      QuietUntilSettled(e, i, j - 1);
    }
  }

  lemma QuietWork(s: State, t: nat, reply: Option<Value>)
    requires InvRefresher(s) && t < |s.threads| && AtWork(s.threads[t]) && GoodThread(s, t)
    requires Unsuccessful(RefresherStep(s, t, reply))
    ensures Unsuccessful(s)
    ensures RefresherStep(s, t, reply).data == s.data && RefresherStep(s, t, reply).expiry == s.expiry
  {
    assert Live(s.threads[t]);
  }

  lemma QuietStep(s: State, step: Step)
    requires Inv(s) && Allowed(s, step) && |Apply(s, step).log| == |s.log| && Unsuccessful(Apply(s, step))
    ensures Unsuccessful(s) && Apply(s, step).data == s.data && Apply(s, step).expiry == s.expiry
  {
    hide InvLock, InvRefresher, InvChannels, InvData, InvClock, InvSettled, InvOrder, InvStale, RefresherStep;
    if step.Run? && AtWork(s.threads[step.t]) {
      assert GoodThread(s, step.t);
      QuietWork(s, step.t, step.reply);
    }
    hide GoodThread;
  }
}
