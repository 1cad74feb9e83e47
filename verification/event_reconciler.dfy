/**
 EventReconciler.Reconcile of internal/controller/event_controller.go: on a FailedMount event for a
 secret without a Renovate token, put a fresh token into the secret, or cancel the PipelineRun.
 */
module EventReconciler {
  import opened Wrappers
  import opened ApiServer
  import Builder = PipelineRunBuilder

  datatype Lookup<T> = Found(value: T) | Missing | Broken

  /** `volume` is the volume name captured from the message, if the message is about a missing token. */
  datatype Event = Event(aboutPod: bool, volume: Option<string>)

  datatype Pod = Pod(run: Option<string>, volumes: seq<Builder.Volume>)

  datatype Exit =
    | NoEvent | NotOurs | PodGone | PodError | NoSecretVolume | SecretGone | SecretError
    | HasToken | ComponentGone | NoToken | UpdateFailed | Filled

  /** The exits that set errMessage. */
  predicate SetsError(exit: Exit) {
    exit.SecretError? || exit.NoToken? || exit.UpdateFailed?
  }

  function WithToken(content: Content, token: string): Content {
    content.(data := content.data[TOKEN_KEY := token])
  }

  /**
   Composition with createPipelineRun: a successful fill is something that call allows the rest of the
   cluster to do to its own objects, at any moment.
   */
  lemma FillIsWithinRely(store: Store, next: nat, writes: set<TokenWrite>, ref: Ref, token: string, mine: set<Ref>,
      creator: bool)
    requires WellFormed(store, next) && TokensKept(store, next, writes)
    requires ref in store && ref.kind == Secret && TOKEN_KEY !in store[ref].content.data
    ensures var filled := Object(store[ref].uid, next, WithToken(store[ref].content, token));
            Rely(store, next, writes, store[ref := filled], next + 1, writes + {TokenWrite(store[ref].uid, token)},
                mine, creator)
  {
  }

  /** Lines 164-170. */
  method FindSecret(volumes: seq<Builder.Volume>, name: string) returns (secret: Option<string>)
    ensures secret == Builder.SecretForVolume(volumes, name)
  {
    for i := 0 to |volumes|
      invariant Builder.SecretForVolume(volumes, name) == Builder.SecretForVolume(volumes[i..], name)
    {
      if volumes[i].name == name && volumes[i].source.FromSecret? {
        return Some(volumes[i].source.name);
      }
    }
    return None;
  }

  lemma SameVersionSameObject(store: Store, next: nat, writes: set<TokenWrite>, store': Store, next': nat,
      writes': set<TokenWrite>, ref: Ref)
    requires WellFormed(store, next) && ref in store && Rely(store, next, writes, store', next', writes', {}, false)
    ensures writes <= writes'
    ensures ref in store' && store'[ref].version == store[ref].version ==> store'[ref] == store[ref]
  {
  }

  lemma WriteIsKept(store: Store, next: nat, writes: set<TokenWrite>, ref: Ref, token: string)
    requires WellFormed(store, next) && TokensKept(store, next, writes) && ref in store
    requires TOKEN_KEY in store[ref].content.data && store[ref].content.data[TOKEN_KEY] == token
    ensures TokensKept(store, next, writes + {TokenWrite(store[ref].uid, token)})
  {
  }

  /** The answers to the requests of FillToken: the Get of the secret, and the Update if it comes to that. */
  datatype Answers = Answers(got: Result<Object, ApiError>, put: Result<Object, ApiError>)

  /** The secret was read without a token and there is one to put in. */
  predicate Puts(got: Result<Object, ApiError>, component: Lookup<bool>, token: Option<string>) {
    got.Success? && TOKEN_KEY !in got.value.content.data && component == Found(true) && token.Some?
  }

  /** Why FillToken ends, from the answers and the inputs alone. */
  function ExitOf(answers: Answers, component: Lookup<bool>, token: Option<string>): Exit {
    match answers.got
    case Failure(error) => if error == NotFound then SecretGone else SecretError
    case Success(secret) =>
      if TOKEN_KEY in secret.content.data then HasToken
      else if component.Missing? then ComponentGone
      else if component.Broken? || !component.value || token.None? then NoToken
      else if answers.put.Success? then Filled
      else UpdateFailed
  }

  function FillCalls(ref: Ref, answers: Answers, component: Lookup<bool>, token: Option<string>): seq<Call> {
    [Got(ref, answers.got)]
    + if Puts(answers.got, component, token)
      then [Updated(ref, answers.got.value, WithToken(answers.got.value.content, token.value), answers.put)]
      else []
  }

  /** The tokens put in: by an update that succeeded, or took effect without being reported. */
  function FillWrites(answers: Answers, component: Lookup<bool>, token: Option<string>): (r: set<TokenWrite>)
    ensures r != {} ==> Puts(answers.got, component, token)
  {
    if Puts(answers.got, component, token) && (answers.put.Success? || answers.put.error == ReplyLost)
    then {TokenWrite(answers.got.value.uid, token.value)} else {}
  }

  /** The compare-and-swap and its record. */
  method SwapToken(server: Server, ref: Ref, seen: Object, token: string)
    returns (put: Result<Object, ApiError>, ghost wrote: set<TokenWrite>)
    requires server.Valid() && TOKEN_KEY !in seen.content.data
    requires ref in server.store && server.store[ref].version == seen.version ==> server.store[ref] == seen
    modifies server
    ensures server.Valid() && server.writes == old(server.writes) + wrote
    ensures wrote == if put.Success? || put.error == ReplyLost then {TokenWrite(seen.uid, token)} else {}
    ensures server.touched == old(server.touched) + (if wrote == {} then {} else {seen.uid})
    ensures server.requests == old(server.requests)
    ensures server.calls == old(server.calls) + [Updated(ref, seen, WithToken(seen.content, token), put)]
    ensures put.Success? ==>
      && ref in server.store && server.store[ref].uid == seen.uid
      && server.store[ref].content == WithToken(seen.content, token)
  {
    hide Rely, WellFormed, TokensKept, DataGrows;
    wrote := {};
    put := server.Update(ref, seen, WithToken(seen.content, token));
    if put.Success? || put.error == ReplyLost {
      wrote := {TokenWrite(seen.uid, token)};
      WriteIsKept(server.store, server.next, server.writes, ref, token);
      server.writes := server.writes + wrote;
    }
  }

  /** Lines 227-235: a compare-and-swap on the copy read before. */
  method PutToken(server: Server, ref: Ref, seen: Object, token: string)
    returns (put: Result<Object, ApiError>, ghost wrote: set<TokenWrite>)
    requires server.Valid() && ref in server.store && server.store[ref] == seen && TOKEN_KEY !in seen.content.data
    modifies server
    ensures server.Valid() && wrote <= server.writes
    ensures wrote == if put.Success? || put.error == ReplyLost then {TokenWrite(seen.uid, token)} else {}
    ensures server.touched == old(server.touched) + (set w | w in wrote :: w.uid)
    ensures server.requests == old(server.requests)
    ensures server.calls == old(server.calls) + [Updated(ref, seen, WithToken(seen.content, token), put)]
    ensures put.Success? ==>
      && ref in server.store && server.store[ref].uid == seen.uid
      && server.store[ref].content == WithToken(seen.content, token)
  {
    ghost var store, next, writes := server.store, server.next, server.writes;
    server.Interfere({}, false);
    SameVersionSameObject(store, next, writes, server.store, server.next, server.writes, ref);
    hide Rely, WellFormed, TokensKept;
    put, wrote := SwapToken(server, ref, seen, token);
    assert wrote == {TokenWrite(seen.uid, token)} ==> (set w | w in wrote :: w.uid) == {seen.uid};
  }

  /** The exits before the secret is looked at, and the secret's name otherwise. */
  function Route(event: Lookup<Event>, pod: Lookup<Pod>): Result<string, Exit> {
    if !event.Found? then Failure(NoEvent)
    else if !event.value.aboutPod || event.value.volume.None? then Failure(NotOurs)
    else if !pod.Found? then Failure(if pod.Missing? then PodGone else PodError)
    else
      var secret := Builder.SecretForVolume(pod.value.volumes, event.value.volume.value);
      if secret in {None, Some("")} then Failure(NoSecretVolume) else Success(secret.value)
  }

  /**
   Lines 176-236: reads the secret once, and updates the copy read exactly when it holds no token and there
   is one to put in; so a token that is there is never replaced.
   */
  method FillToken(server: Server, name: string, component: Lookup<bool>, token: Option<string>)
    returns (exit: Exit, ghost wrote: set<TokenWrite>, ghost answers: Answers)
    requires server.Valid()
    modifies server
    ensures server.Valid() && wrote <= server.writes && server.requests == old(server.requests)
    ensures server.calls == old(server.calls) + FillCalls(Ref(Secret, name), answers, component, token)
    ensures exit == ExitOf(answers, component, token)
    ensures wrote == FillWrites(answers, component, token)
    ensures server.touched == old(server.touched) + (set w | w in wrote :: w.uid)
    ensures exit.Filled? ==>
      var ref := Ref(Secret, name);
      && ref in server.store && server.store[ref].uid == answers.got.value.uid
      && server.store[ref].content == WithToken(answers.got.value.content, token.value)
  {
    wrote := {};
    var ref := Ref(Secret, name);
    server.Interfere({}, false);
    var got := server.Get(ref);
    answers := Answers(got, Failure(Rejected));
    if got.Failure? {
      exit := if got.error == NotFound then SecretGone else SecretError;
      return;
    }
    var seen := got.value;
    if TOKEN_KEY in seen.content.data {
      exit := HasToken;
      return;
    }
    if component.Missing? {
      exit := ComponentGone;
      return;
    }
    if component.Broken? || !component.value || token.None? {
      exit := NoToken;
      return;
    }
    hide Rely, WellFormed, TokensKept;
    var put;
    put, wrote := PutToken(server, ref, seen, token.value);
    answers := Answers(got, put);
    exit := if put.Success? then Filled else UpdateFailed;
  }

  /** Lines 121-238. */
  method Handle(server: Server, event: Lookup<Event>, pod: Lookup<Pod>, component: Lookup<bool>, token: Option<string>)
    returns (exit: Exit, ghost wrote: set<TokenWrite>, ghost answers: Answers)
    requires server.Valid()
    modifies server
    ensures server.Valid() && wrote <= server.writes && server.requests == old(server.requests)
    ensures server.touched == old(server.touched) + (set w | w in wrote :: w.uid)
    ensures match Route(event, pod)
      case Failure(reason) => exit == reason && wrote == {} && server.calls == old(server.calls)
      case Success(name) =>
        && exit == ExitOf(answers, component, token) && wrote == FillWrites(answers, component, token)
        && server.calls == old(server.calls) + FillCalls(Ref(Secret, name), answers, component, token)
        && (exit.Filled? ==>
              && Ref(Secret, name) in server.store
              && server.store[Ref(Secret, name)].content == WithToken(answers.got.value.content, token.value))
  {
    wrote, answers := {}, Answers(Failure(Rejected), Failure(Rejected));
    if !event.Found? {
      exit := NoEvent;
      return;
    }
    if !event.value.aboutPod || event.value.volume.None? {
      exit := NotOurs;
      return;
    }
    if !pod.Found? {
      exit := if pod.Missing? then PodGone else PodError;
      return;
    }
    var secret := FindSecret(pod.value.volumes, event.value.volume.value);
    if secret.None? || secret.value == "" {
      exit := NoSecretVolume;
      return;
    }
    exit, wrote, answers := FillToken(server, secret.value, component, token);
  }

  /** Whether the deferred function gets as far as the cancelling patch. */
  predicate Cancels(exit: Exit, pod: Lookup<Pod>, run: Lookup<seq<Condition>>) {
    SetsError(exit) && pod.Found? && pod.value.run.Some? && run.Found?
  }

  /** The patches of the deferred function, and whether they took effect. */
  function Deferred(name: string, event: Lookup<Event>, exit: Exit, pod: Lookup<Pod>, run: Lookup<seq<Condition>>,
      marked: bool, cancelled: bool)
    : seq<Request>
  {
    (if event.Found? then [Patched(Ref(ClusterEvent, name), Annotate(PROCESSED, "true"), marked)] else [])
    + if Cancels(exit, pod, run)
      then [Patched(Ref(PipelineRun, pod.value.run.value), Cancel(run.value), cancelled)] else []
  }

  /** One patch, after whatever the rest of the cluster did; `took` and `uids` are history. */
  method SendPatch(server: Server, ref: Ref, change: Change) returns (ghost took: bool, ghost uids: set<nat>)
    requires server.Valid() && Fits(ref, change)
    modifies server
    ensures server.Valid() && old(server.writes) <= server.writes
    ensures server.requests == old(server.requests) + [Patched(ref, change, took)]
    ensures server.touched == old(server.touched) + uids
    ensures if took then ref in server.store && uids == {server.store[ref].uid} else uids == {}
    ensures server.calls == old(server.calls)
    ensures took && change.Cancel? ==> server.store[ref].content.cancelled
    ensures took && change.Annotate? ==> (change.key, change.value) in server.store[ref].content.data.Items
  {
    server.Interfere({}, false);
    var ok;
    ok, took := server.Patch(ref, change);
    uids := if took then {server.store[ref].uid} else {};
  }

  /**
   Lines 79-119: mark the event, then cancel the run; failures are only logged. `run` is the run as it is
   read for the patch.
   */
  method Finish(server: Server, name: string, event: Lookup<Event>, exit: Exit, pod: Lookup<Pod>,
      run: Lookup<seq<Condition>>)
    returns (ghost marked: bool, ghost cancelled: bool, ghost uids: set<nat>)
    requires server.Valid()
    modifies server
    ensures server.Valid() && old(server.writes) <= server.writes
    ensures server.requests == old(server.requests) + Deferred(name, event, exit, pod, run, marked, cancelled)
    ensures server.touched == old(server.touched) + uids && (uids != {} ==> marked || cancelled)
    ensures server.calls == old(server.calls)
    ensures cancelled ==>
      && Cancels(exit, pod, run)
      && var ref := Ref(PipelineRun, pod.value.run.value);
         ref in server.store && server.store[ref].content.cancelled && server.store[ref].uid in uids
  {
    marked, cancelled, uids := false, false, {};
    if event.Found? {
      marked, uids := SendPatch(server, Ref(ClusterEvent, name), Annotate(PROCESSED, "true"));
    }
    if SetsError(exit) && pod.Found? {
      if pod.value.run.None? || !run.Found? {
        return;
      }
      ghost var more;
      cancelled, more := SendPatch(server, Ref(PipelineRun, pod.value.run.value), Cancel(run.value));
      uids := uids + more;
    }
  }

  /**
   The whole invocation. What it sends and how it ends is fixed by its inputs and the answers: the Get of
   the secret and at most one Update, then the patch that marks the event, then the patch that cancels the
   pod's run, exactly when the token could not be provided and the run could be read.
   */
  method Reconcile(server: Server, name: string, event: Lookup<Event>, pod: Lookup<Pod>, component: Lookup<bool>,
      token: Option<string>, run: Lookup<seq<Condition>>)
    returns (exit: Exit, ghost wrote: set<TokenWrite>, ghost answers: Answers, ghost marked: bool,
        ghost cancelled: bool, ghost uids: set<nat>)
    requires server.Valid()
    modifies server
    ensures server.Valid() && wrote <= server.writes
    ensures match Route(event, pod)
      case Failure(reason) => exit == reason && wrote == {} && server.calls == old(server.calls)
      case Success(secret) =>
        && exit == ExitOf(answers, component, token) && wrote == FillWrites(answers, component, token)
        && server.calls == old(server.calls) + FillCalls(Ref(Secret, secret), answers, component, token)
    ensures server.requests == old(server.requests) + Deferred(name, event, exit, pod, run, marked, cancelled)
    ensures server.touched == old(server.touched) + (set w | w in wrote :: w.uid) + uids
    ensures uids != {} ==> marked || cancelled
    ensures cancelled ==>
      && Cancels(exit, pod, run)
      && var ref := Ref(PipelineRun, pod.value.run.value);
         ref in server.store && server.store[ref].content.cancelled && server.store[ref].uid in uids
  {
    exit, wrote, answers := Handle(server, event, pod, component, token);
    marked, cancelled, uids := Finish(server, name, event, exit, pod, run);
  }

  lemma {:induction false} SecretFoundIff(volumes: seq<Builder.Volume>, name: string, secret: string)
    ensures Builder.SecretForVolume(volumes, name) == Some(secret)
      <==> exists k :: FirstSecretVolume(volumes, name, secret, k)
  {
    if volumes != [] {
      var rest := volumes[1..];
      SecretFoundIff(rest, name, secret);
      if volumes[0].name == name && volumes[0].source.FromSecret? {
        assert volumes[0].source.name == secret ==> FirstSecretVolume(volumes, name, secret, 0);
      } else {
        forall k ensures FirstSecretVolume(rest, name, secret, k - 1) <==> FirstSecretVolume(volumes, name, secret, k) {
          assert forall j | 0 <= j < |rest| :: rest[j] == volumes[j + 1];
          assert forall j | 0 < j < |volumes| :: volumes[j] == rest[j - 1];
        }
        if k :| FirstSecretVolume(rest, name, secret, k) {
          assert FirstSecretVolume(rest, name, secret, (k + 1) - 1);
          assert FirstSecretVolume(volumes, name, secret, k + 1);
        }
      }
    }
  }

  /** Position k holds the first volume of that name made from a secret. */
  predicate FirstSecretVolume(volumes: seq<Builder.Volume>, name: string, secret: string, k: int) {
    && 0 <= k < |volumes| && volumes[k].name == name && volumes[k].source == Builder.FromSecret(secret)
    && forall j | 0 <= j < k :: !(volumes[j].name == name && volumes[j].source.FromSecret?)
  }

  /** When the secret is looked at, and which; otherwise why not. */
  lemma RouteIs(event: Lookup<Event>, pod: Lookup<Pod>)
    ensures Route(event, pod) == Failure(NoEvent) <==> !event.Found?
    ensures Route(event, pod) == Failure(NotOurs)
      <==> event.Found? && (!event.value.aboutPod || event.value.volume.None?)
    ensures event.Found? && event.value.aboutPod && event.value.volume.Some? ==>
      && (Route(event, pod) == Failure(PodGone) <==> pod.Missing?)
      && (Route(event, pod) == Failure(PodError) <==> pod.Broken?)
      && (pod.Found? ==>
            var r, volumes, volume := Route(event, pod), pod.value.volumes, event.value.volume.value;
            && (forall secret, k | FirstSecretVolume(volumes, volume, secret, k) && secret != "" ::
                  r == Success(secret))
            && (r.Success? ==> r.value != "" && exists k :: FirstSecretVolume(volumes, volume, r.value, k))
            && (r.Failure? ==> r.error == NoSecretVolume))
  {
    if event.Found? && event.value.volume.Some? && pod.Found? {
      var volumes, volume := pod.value.volumes, event.value.volume.value;
      hide FirstSecretVolume, Builder.SecretForVolume;
      var found := Builder.SecretForVolume(volumes, volume);
      forall secret, k | FirstSecretVolume(volumes, volume, secret, k) ensures found == Some(secret) {
        SecretFoundIff(volumes, volume, secret);
      }
      if found.Some? {
        SecretFoundIff(volumes, volume, found.value);
      }
    }
  }

  /** The patches, one by one: the event is marked when it was read, and the run cancelled after three exits only. */
  lemma DeferredIs(name: string, event: Lookup<Event>, exit: Exit, pod: Lookup<Pod>, run: Lookup<seq<Condition>>,
      marked: bool, cancelled: bool)
    ensures var requests := Deferred(name, event, exit, pod, run, marked, cancelled);
      && (Patched(Ref(ClusterEvent, name), Annotate(PROCESSED, "true"), marked) in requests <==> event.Found?)
      && ((exists request :: request in requests && request.Patched? && request.change.Cancel?)
          <==> exit in {SecretError, NoToken, UpdateFailed} && pod.Found? && pod.value.run.Some? && run.Found?)
      && (forall request | request in requests && request.Patched? && request.change.Cancel? ::
            request == Patched(Ref(PipelineRun, pod.value.run.value), Cancel(run.value), cancelled))
      && |requests| == (if event.Found? then 1 else 0)
          + (if exit in {SecretError, NoToken, UpdateFailed} && pod.Found? && pod.value.run.Some? && run.Found?
             then 1 else 0)
  {
    if Cancels(exit, pod, run) {
      var requests := Deferred(name, event, exit, pod, run, marked, cancelled);
      var last := requests[|requests| - 1];
      assert last in requests && last.change.Cancel?;
    }
  }

  /** A token that is there is never replaced, and nothing but the token is added, whatever the answers. */
  lemma TokensAreNotReplaced(answers: Answers, component: Lookup<bool>, token: Option<string>, ref: Ref)
    ensures forall call | call in FillCalls(ref, answers, component, token) && call.Updated? ::
      && call.ref == ref && answers.got == Success(call.seen) && call.answer == answers.put
      && TOKEN_KEY !in call.seen.content.data
      && call.content.(data := call.seen.content.data) == call.seen.content
      && call.content.data.Keys == call.seen.content.data.Keys + {TOKEN_KEY}
      && DataGrows(call.seen.content.data, call.content.data) && token == Some(call.content.data[TOKEN_KEY])
    ensures forall w | w in FillWrites(answers, component, token) :: token == Some(w.token)
    ensures FillWrites(answers, component, token) != {} <==>
      exists call :: call in FillCalls(ref, answers, component, token) && call.Updated?
          && (call.answer.Success? || call.answer.error == ReplyLost)
  {
    var calls := FillCalls(ref, answers, component, token);
    if Puts(answers.got, component, token) {
      assert calls[1] in calls && calls[1].Updated?;
    }
  }

  /** The exits after an answer that holds no token, and those without such an answer. */
  lemma ExitIs(answers: Answers, component: Lookup<bool>, token: Option<string>)
    ensures var exit, got := ExitOf(answers, component, token), answers.got;
      && (exit.SecretGone? <==> got.Failure? && got.error == NotFound)
      && (exit.SecretError? <==> got.Failure? && got.error != NotFound)
      && (exit.HasToken? <==> got.Success? && TOKEN_KEY in got.value.content.data)
      && (got.Success? && TOKEN_KEY !in got.value.content.data ==>
            && (exit.ComponentGone? <==> component.Missing?)
            && (exit.Filled? <==> component == Found(true) && token.Some? && answers.put.Success?)
            && (exit.UpdateFailed? <==> component == Found(true) && token.Some? && answers.put.Failure?)
            && exit in {ComponentGone, Filled, UpdateFailed, NoToken})
  {
  }

  /**
   An event about a mounted secret ends with the secret holding a token, with nothing left to provide one
   for, or with the error that cancels the run.
   */
  lemma EndsFilledGoneOrCancelled(answers: Answers, component: Lookup<bool>, token: Option<string>, pod: Lookup<Pod>,
      run: Lookup<seq<Condition>>)
    ensures var exit := ExitOf(answers, component, token);
      && (exit.Filled? <==> Puts(answers.got, component, token) && answers.put.Success?)
      && (exit.HasToken? <==> answers.got.Success? && TOKEN_KEY in answers.got.value.content.data)
      && (exit in {Filled, HasToken, SecretGone, ComponentGone} ==> !Cancels(exit, pod, run))
      && (exit !in {Filled, HasToken, SecretGone, ComponentGone} ==>
            (Cancels(exit, pod, run) <==> pod.Found? && pod.value.run.Some? && run.Found?))
  {
  }
}
