/**
 createPipelineRun of internal/controller/dependencyupdatecheck_controller.go: a sequence of API
 requests with a deferred rollback, interleaved with the rest of the cluster.
 */
module CreateTransaction {
  import opened Wrappers
  import opened ApiServer
  import FilteredComponents
  import RepoIdentity

  const DOCKER_KEY := ".dockerconfigjson"

  datatype CreateError = LocalError | Api(error: ApiError)

  /** What the component and the helpers answer during the call. */
  datatype Inputs = Inputs(
    github: bool,
    token: Option<string>,
    dockerConfig: Result<Option<string>, CreateError>,
    renovateConfig: Option<string>,
    rpmKey: Option<(string, string)>,
    ownable: bool)

  function SecretRef(name: string): Ref { Ref(Secret, name) }
  function ConfigRef(name: string): Ref { Ref(ConfigMap, name) }
  function RpmRef(name: string): Ref { Ref(Secret, name + "-rpm-key") }
  function RunRef(name: string): Ref { Ref(PipelineRun, name) }

  lemma KeysDiffer()
    ensures TOKEN_KEY != DOCKER_KEY && "activationkey" != "org"
  {
    assert |TOKEN_KEY| < |DOCKER_KEY| && |"org"| < |"activationkey"|;
  }

  function SecretContent(inputs: Inputs): (r: Content)
    requires inputs.dockerConfig.Success?
    ensures TOKEN_KEY in r.data <==> !inputs.github && inputs.token.Some?
    ensures TOKEN_KEY in r.data ==> r.data[TOKEN_KEY] == inputs.token.value
    ensures DOCKER_KEY in r.data <==> inputs.dockerConfig.value.Some?
    ensures DOCKER_KEY in r.data ==> r.data[DOCKER_KEY] == inputs.dockerConfig.value.value
    ensures r.data.Keys <= {TOKEN_KEY, DOCKER_KEY} && Blank(r)
  {
    KeysDiffer();
    var token := if !inputs.github && inputs.token.Some? then map[TOKEN_KEY := inputs.token.value] else map[];
    var docker := if inputs.dockerConfig.value.Some? then map[DOCKER_KEY := inputs.dockerConfig.value.value] else map[];
    Content(token + docker, "", [], {}, false)
  }

  /** Nothing but data and perhaps a label. */
  predicate Blank(content: Content) {
    content.conditions == [] && content.owners == {} && !content.cancelled
  }

  function ConfigContent(config: string): Content {
    Content(map["config.js" := "module.exports = " + config], "", [], {}, false)
  }

  function RpmContent(key: (string, string)): Content {
    Content(map["activationkey" := key.0, "org" := key.1], "", [], {}, false)
  }

  function RunContent(repoHash: string): Content {
    Content(map[], repoHash, [], {}, false)
  }

  /** The objects this call made: each is where it was put, with the uid it was given, newer than anything before the
      call. */
  predicate Holds(store: Store, next: nat, made: map<Ref, nat>, base: nat) {
    forall r | r in made :: r in store && store[r].uid == made[r] && base <= made[r] < next
  }

  /** Every PipelineRun was there before, with the same label and at most more finished, or is the one this call
      creates. */
  predicate RunsGrewBy(before: Store, after: Store, run: Ref, repoHash: string) {
    forall r | r in after && r.kind == PipelineRun ::
      || (r in before && after[r].content.repoHash == before[r].content.repoHash
          && (Completed(before[r].content.conditions) ==> Completed(after[r].content.conditions)))
      || (r == run && after[r].content.repoHash == repoHash)
  }

  /** The state a call starts from, and the names and label it works with. */
  datatype Start = Start(name: string, repoHash: string, store: Store, next: nat, touched: set<nat>)

  predicate IsOurs(ref: Ref, name: string) {
    ref == SecretRef(name) || ref == ConfigRef(name) || ref == RpmRef(name) || ref == RunRef(name)
  }

  /** Everything this call wrote to or deleted, it had made. */
  predicate TouchedOnly(touched: set<nat>, before: set<nat>, made: map<Ref, nat>) {
    forall u | u in touched :: u in before || exists r :: r in made && made[r] == u
  }

  /** Progress of one call between two requests. */
  predicate Progress(store: Store, next: nat, touched: set<nat>, start: Start, made: map<Ref, nat>) {
    && start.next <= next
    && Holds(store, next, made, start.next)
    && (forall r | r in made :: IsOurs(r, start.name))
    && TouchedOnly(touched, start.touched, made)
    && RunsGrewBy(start.store, store, RunRef(start.name), start.repoHash)
  }

  /** Of the objects made, exactly those in `lost` were created without the call being told. */
  predicate LostExactly(lostCreates: set<nat>, made: map<Ref, nat>, lost: set<Ref>) {
    forall r | r in made :: r in lost <==> made[r] in lostCreates
  }

  ghost predicate Underway(server: Server, start: Start, made: map<Ref, nat>, lost: set<Ref>)
    reads server
  {
    && server.Valid() && Progress(server.store, server.next, server.touched, start, made)
    && LostExactly(server.lostCreates, made, lost)
    && forall r | r in made :: made[r] !in server.failedDeletes
  }

  /** Putting `item` under `ref`, new or in place of this call's own, is progress. */
  lemma PutIsProgress(store: Store, next: nat, touched: set<nat>, start: Start, made: map<Ref, nat>, ref: Ref,
      item: Object, next': nat)
    requires Progress(store, next, touched, start, made)
    requires IsOurs(ref, start.name) && next <= next' && start.next <= item.uid < next'
    requires ref in made ==> made[ref] == item.uid
    requires ref.kind == PipelineRun ==> ref !in made && item.content.repoHash == start.repoHash
    ensures Progress(store[ref := item], next', touched + {item.uid}, start, made[ref := item.uid])
  {
    var made' := made[ref := item.uid];
    forall u | u in touched + {item.uid} ensures u in start.touched || exists r :: r in made' && made'[r] == u {
      if u == item.uid {
        assert made'[ref] == u;
      } else if u !in start.touched {
        var r :| r in made && made[r] == u;
        assert r in made' && made'[r] == u;
      }
    }
  }

  lemma UpdateIsProgress(store: Store, next: nat, touched: set<nat>, start: Start, made: map<Ref, nat>, ref: Ref,
      item: Object, next': nat)
    requires Progress(store, next, touched, start, made)
    requires ref in made && ref.kind != PipelineRun && made[ref] == item.uid && next <= next'
    ensures Progress(store[ref := item], next', touched + {item.uid}, start, made)
  {
  }

  predicate Refused(call: Call) {
    match call
    case Created(_, _, answer) => answer.Failure?
    case Updated(_, _, _, answer) => answer.Failure?
    case _ => false
  }

  /** Since `before` no create or update was refused. */
  predicate AllAccepted(before: seq<Call>, after: seq<Call>) {
    before <= after && forall k | |before| <= k < |after| :: !Refused(after[k])
  }

  lemma AcceptedTransitive(a: seq<Call>, b: seq<Call>, c: seq<Call>)
    requires a <= b <= c
    ensures AllAccepted(a, c) <==> AllAccepted(a, b) && AllAccepted(b, c)
  {
    forall k | |a| <= k < |b| ensures b[k] == c[k] {
    }
  }

  lemma AcceptedReflexive(calls: seq<Call>)
    ensures AllAccepted(calls, calls)
  {
  }

  lemma OneCall(calls: seq<Call>, call: Call)
    ensures calls <= calls + [call] && (AllAccepted(calls, calls + [call]) <==> !Refused(call))
  {
    assert (calls + [call])[|calls|] == call;
  }

  lemma OneUpdate(calls: seq<Call>, ref: Ref, seen: Object, content: Content, answer: Result<Object, ApiError>)
    ensures calls <= calls + [Updated(ref, seen, content, answer)]
    ensures AllAccepted(calls, calls + [Updated(ref, seen, content, answer)]) <==> answer.Success?
  {
    OneCall(calls, Updated(ref, seen, content, answer));
  }

  /** What a created object holds, key by key. */
  predicate RightContent(ref: Ref, content: Content, name: string, repoHash: string, inputs: Inputs) {
    Blank(content) &&
    match ref.kind
    case Secret =>
      if ref.name == name then
        && content.data.Keys <= {TOKEN_KEY, DOCKER_KEY}
        && (TOKEN_KEY in content.data <==> !inputs.github)
        && (TOKEN_KEY in content.data ==> inputs.token == Some(content.data[TOKEN_KEY]))
        && inputs.dockerConfig.Success?
        && (DOCKER_KEY in content.data <==> inputs.dockerConfig.value.Some?)
        && (DOCKER_KEY in content.data ==> inputs.dockerConfig.value == Some(content.data[DOCKER_KEY]))
      else
        && ref.name == name + "-rpm-key" && content.data.Keys == {"activationkey", "org"}
        && inputs.rpmKey == Some((content.data["activationkey"], content.data["org"]))
    case ConfigMap =>
      && ref.name == name && inputs.renovateConfig.Some?
      && content.data == map["config.js" := "module.exports = " + inputs.renovateConfig.value]
    case PipelineRun => ref.name == name && content.repoHash == repoHash && content.data == map[]
    case ClusterEvent => false
  }

  /** The requests of a call: it creates the right objects, adds owners to its dependents, deletes its own. */
  predicate RightCall(call: Call, name: string, repoHash: string, inputs: Inputs) {
    match call
    case Created(ref, content, _) => RightContent(ref, content, name, repoHash, inputs)
    case Updated(ref, seen, content, _) =>
      && ref in {Ref(Secret, name), Ref(Secret, name + "-rpm-key"), Ref(ConfigMap, name)}
      && content == seen.content.(owners := content.owners) && seen.content.owners <= content.owners
    case Deleted(ref, _) =>
      ref in {Ref(Secret, name), Ref(Secret, name + "-rpm-key"), Ref(ConfigMap, name), Ref(PipelineRun, name)}
    case Got(_, _) => false
  }

  predicate AllRight(before: seq<Call>, after: seq<Call>, start: Start, inputs: Inputs) {
    before <= after && forall k | |before| <= k < |after| :: RightCall(after[k], start.name, start.repoHash, inputs)
  }

  lemma RightTransitive(a: seq<Call>, b: seq<Call>, c: seq<Call>, start: Start, inputs: Inputs)
    requires AllRight(a, b, start, inputs) && AllRight(b, c, start, inputs)
    ensures AllRight(a, c, start, inputs)
  {
    hide RightCall;
    forall k | |a| <= k < |c| ensures RightCall(c[k], start.name, start.repoHash, inputs) {
      assert k < |b| ==> c[k] == b[k];
    }
  }

  lemma RightReflexive(calls: seq<Call>, start: Start, inputs: Inputs)
    ensures AllRight(calls, calls, start, inputs)
  {
  }

  lemma OneRight(calls: seq<Call>, call: Call, start: Start, inputs: Inputs)
    requires RightCall(call, start.name, start.repoHash, inputs)
    ensures AllRight(calls, calls + [call], start, inputs)
  {
    hide RightCall;
  }

  lemma ContentsAreRight(start: Start, inputs: Inputs)
    ensures (inputs.github || inputs.token.Some?) && inputs.dockerConfig.Success? ==>
      RightContent(SecretRef(start.name), SecretContent(inputs), start.name, start.repoHash, inputs)
    ensures inputs.renovateConfig.Some? ==>
      var content := ConfigContent(inputs.renovateConfig.value);
      RightContent(ConfigRef(start.name), content, start.name, start.repoHash, inputs)
    ensures inputs.rpmKey.Some? ==>
      RightContent(RpmRef(start.name), RpmContent(inputs.rpmKey.value), start.name, start.repoHash, inputs)
    ensures RightContent(RunRef(start.name), RunContent(start.repoHash), start.name, start.repoHash, inputs)
  {
    KeysDiffer();
    NamesDiffer(start.name);
  }

  method Wait(server: Server, ghost start: Start, ghost made: map<Ref, nat>)
    requires Underway(server, start, made, {})
    modifies server
    ensures server.requests == old(server.requests)
    ensures Underway(server, start, made, {}) && KeepsMine(old(server.store), server.store, made.Keys)
    ensures server.calls == old(server.calls)
  {
    server.Interfere(made.Keys, true);
  }

  /** `seen` is this call's latest copy of the object it made under `ref`: what is stored is that copy or something
      newer. */
  predicate Tracked(store: Store, ref: Ref, seen: Object) {
    && ref in store && store[ref].uid == seen.uid && store[ref].version >= seen.version
    && (store[ref].version == seen.version ==> store[ref] == seen)
    && store[ref].content.owners == seen.content.owners && store[ref].content.repoHash == seen.content.repoHash
    && DataGrows(seen.content.data, store[ref].content.data)
  }

  /**
   What the call knows about its objects. `seen` holds its copies, `resources` lists them for the
   rollback; `lost` are the objects whose creation took effect but was reported as failed.
   */
  ghost predicate Accounted(store: Store, resources: seq<Ref>, seen: map<Ref, Object>, made: map<Ref, nat>,
      lost: set<Ref>) {
    && (forall i, j | 0 <= i < j < |resources| :: resources[i] != resources[j])
    && (set r | r in resources) == seen.Keys
    && made.Keys == seen.Keys + lost && seen.Keys !! lost
    && forall r | r in seen :: Tracked(store, r, seen[r]) && made[r] == seen[r].uid
  }

  lemma WaitKeepsAccounts(store: Store, store': Store, resources: seq<Ref>, seen: map<Ref, Object>,
      made: map<Ref, nat>, lost: set<Ref>)
    requires Accounted(store, resources, seen, made, lost) && KeepsMine(store, store', made.Keys)
    ensures Accounted(store', resources, seen, made, lost)
  {
  }

  lemma LostIsAccounted(store: Store, resources: seq<Ref>, seen: map<Ref, Object>, made: map<Ref, nat>, ref: Ref,
      item: Object)
    requires Accounted(store, resources, seen, made, {}) && ref !in seen
    ensures Accounted(store[ref := item], resources, seen, made[ref := item.uid], {ref})
  {
  }

  lemma CreatedIsAccounted(store: Store, resources: seq<Ref>, seen: map<Ref, Object>, made: map<Ref, nat>, ref: Ref,
      item: Object)
    requires Accounted(store, resources, seen, made, {}) && ref !in seen
    ensures Accounted(store[ref := item], resources + [ref], seen[ref := item], made[ref := item.uid], {})
  {
  }

  lemma UpdatedIsAccounted(store: Store, resources: seq<Ref>, seen: map<Ref, Object>, made: map<Ref, nat>, ref: Ref,
      item: Object)
    requires Accounted(store, resources, seen, made, {}) && ref in seen && item.uid == seen[ref].uid
    ensures Accounted(store[ref := item], resources, seen[ref := item], made, {})
  {
  }

  /** What creating an object changes in the books, whether or not the call is told. */
  lemma CreationIsUnderway(store: Store, next: nat, touched: set<nat>, lostCreates: set<nat>, failedDeletes: set<nat>,
      start: Start, made: map<Ref, nat>, ref: Ref, item: Object, next': nat)
    requires Progress(store, next, touched, start, made) && LostExactly(lostCreates, made, {})
    requires forall u | u in lostCreates || u in failedDeletes :: u < next
    requires forall r | r in made :: made[r] !in failedDeletes
    requires IsOurs(ref, start.name) && ref !in made && next <= item.uid < next'
    requires ref.kind == PipelineRun ==> item.content.repoHash == start.repoHash
    ensures var made' := made[ref := item.uid];
            && Progress(store[ref := item], next', touched + {item.uid}, start, made')
            && LostExactly(lostCreates, made', {}) && LostExactly(lostCreates + {item.uid}, made', {ref})
            && (forall r | r in made' :: made'[r] !in failedDeletes)
  {
    PutIsProgress(store, next, touched, start, made, ref, item, next');
  }

  /** The Create request and what it makes of the books. */
  method Submit(server: Server, ref: Ref, content: Content, ghost start: Start, ghost made: map<Ref, nat>)
    returns (r: Result<Object, ApiError>, ghost made': map<Ref, nat>, ghost lost: set<Ref>)
    requires Underway(server, start, made, {})
    requires IsOurs(ref, start.name) && ref !in made && (ref.kind == PipelineRun ==> content.repoHash == start.repoHash)
    modifies server
    ensures server.requests == old(server.requests)
    ensures Underway(server, start, made', lost)
    ensures server.calls == old(server.calls) + [Created(ref, content, r)]
    ensures r.Success? ==>
      && r.value.content == content && server.store == old(server.store)[ref := r.value]
      && made' == made[ref := r.value.uid] && lost == {}
    ensures r == Failure(ReplyLost) ==>
      && ref in server.store && server.store == old(server.store)[ref := server.store[ref]]
      && made' == made[ref := server.store[ref].uid] && lost == {ref}
    ensures r.Failure? && r.error != ReplyLost ==> server.store == old(server.store) && made' == made && lost == {}
  {
    ghost var store, next, touched := server.store, server.next, server.touched;
    ghost var lostCreates, failedDeletes := server.lostCreates, server.failedDeletes;
    hide Progress, LostExactly, WellFormed, TokensKept, IsOurs;
    r := server.Create(ref, content);
    made', lost := made, {};
    if r.Success? {
      CreationIsUnderway(store, next, touched, lostCreates, failedDeletes, start, made, ref, r.value, server.next);
      made' := made[ref := r.value.uid];
    } else if r.error == ReplyLost {
      CreationIsUnderway(store, next, touched, lostCreates, failedDeletes, start, made, ref, server.store[ref],
          server.next);
      made', lost := made[ref := server.store[ref].uid], {ref};
    } else {
      QuietProgress(store, next, touched, start, made, server.next);
    }
  }

  lemma NotYetMade(store: Store, resources: seq<Ref>, seen: map<Ref, Object>, made: map<Ref, nat>, ref: Ref)
    requires Accounted(store, resources, seen, made, {}) && ref !in seen
    ensures ref !in made
  {
  }

  lemma CreatedRight(before: seq<Call>, after: seq<Call>, ref: Ref, content: Content, start: Start, inputs: Inputs)
    requires RightContent(ref, content, start.name, start.repoHash, inputs)
    requires exists answer :: after == before + [Created(ref, content, answer)]
    ensures AllRight(before, after, start, inputs)
  {
    hide RightContent;
    var answer :| after == before + [Created(ref, content, answer)];
    OneRight(before, Created(ref, content, answer), start, inputs);
  }

  /** Create and, on success, remember the object for the rollback. */
  method CreateOne(server: Server, ref: Ref, content: Content, resources: seq<Ref>, seen: map<Ref, Object>,
      ghost start: Start, ghost made: map<Ref, nat>)
    returns (error: Option<CreateError>, resources': seq<Ref>, seen': map<Ref, Object>, ghost made': map<Ref, nat>,
        ghost lost: set<Ref>)
    requires Underway(server, start, made, {}) && Accounted(server.store, resources, seen, made, {})
    requires IsOurs(ref, start.name) && ref !in seen && (ref.kind == PipelineRun ==> content.repoHash == start.repoHash)
    modifies server
    ensures server.requests == old(server.requests)
    ensures Underway(server, start, made', lost) && Accounted(server.store, resources', seen', made', lost)
    ensures error.None? ==>
      && resources' == resources + [ref] && ref in seen' && seen' == seen[ref := seen'[ref]]
      && seen'[ref].content == content && lost == {}
    ensures error.Some? ==> resources' == resources && seen' == seen
    ensures old(server.calls) <= server.calls && (error.None? <==> AllAccepted(old(server.calls), server.calls))
    ensures exists answer :: server.calls == old(server.calls) + [Created(ref, content, answer)]
  {
    hide Accounted, Underway, IsOurs, KeepsMine, AllAccepted;
    NotYetMade(server.store, resources, seen, made, ref);
    ghost var initial := server.store;
    Wait(server, start, made);
    ghost var store := server.store;
    WaitKeepsAccounts(initial, store, resources, seen, made, {});
    var r;
    r, made', lost := Submit(server, ref, content, start, made);
    OneCall(old(server.calls), Created(ref, content, r));
    error, resources', seen' := None, resources, seen;
    if r.Success? {
      CreatedIsAccounted(store, resources, seen, made, ref, r.value);
      resources', seen' := resources + [ref], seen[ref := r.value];
    } else {
      if r.error == ReplyLost {
        LostIsAccounted(store, resources, seen, made, ref, server.store[ref]);
      }
      error := Some(Api(r.error));
    }
  }

  lemma QuietProgress(store: Store, next: nat, touched: set<nat>, start: Start, made: map<Ref, nat>, next': nat)
    requires Progress(store, next, touched, start, made) && next <= next'
    ensures Progress(store, next', touched, start, made)
  {
  }

  function OwnedBy(content: Content, run: Object): Content {
    content.(owners := content.owners + {run.uid})
  }

  /**
   A token put into a dependent leaves the call's books right but gives the object a version the call has
   not seen, so that its ownership update fails.
   */
  lemma FilledIsUnseen(store: Store, next: nat, resources: seq<Ref>, seen: map<Ref, Object>, made: map<Ref, nat>,
      ref: Ref, token: string)
    requires WellFormed(store, next) && Accounted(store, resources, seen, made, {}) && ref in seen
    requires TOKEN_KEY !in store[ref].content.data
    ensures var content := store[ref].content;
            var filled := Object(store[ref].uid, next, content.(data := content.data[TOKEN_KEY := token]));
            && Accounted(store[ref := filled], resources, seen, made, {})
            && store[ref := filled][ref].version != seen[ref].version
  {
    var content := store[ref].content;
    var filled := Object(store[ref].uid, next, content.(data := content.data[TOKEN_KEY := token]));
    assert Tracked(store, ref, seen[ref]);
    forall r | r in seen ensures Tracked(store[ref := filled], r, seen[r]) {
      assert Tracked(store, r, seen[r]);
    }
  }

  lemma UnseenStays(store: Store, store': Store, resources: seq<Ref>, seen: map<Ref, Object>, made: map<Ref, nat>,
      ref: Ref)
    requires Accounted(store, resources, seen, made, {}) && KeepsMine(store, store', made.Keys) && ref in seen
    ensures ref in store && ref in store'
    ensures store[ref].version != seen[ref].version ==> store'[ref].version != seen[ref].version
  {
    assert Tracked(store, ref, seen[ref]) && ref in made.Keys;
  }

  lemma KnownObject(store: Store, resources: seq<Ref>, seen: map<Ref, Object>, made: map<Ref, nat>, ref: Ref)
    requires Accounted(store, resources, seen, made, {}) && ref in seen
    ensures ref in made && made[ref] == seen[ref].uid
    ensures ref in store && (store[ref].version == seen[ref].version ==> store[ref] == seen[ref])
  {
    assert Tracked(store, ref, seen[ref]);
  }

  /** The Update request and what it makes of the call's progress. */
  method SendOwner(server: Server, ref: Ref, seen: Object, run: Object, ghost start: Start, ghost made: map<Ref, nat>)
    returns (updated: Result<Object, ApiError>)
    requires Underway(server, start, made, {}) && ref in made && made[ref] == seen.uid && ref.kind != PipelineRun
    requires ref in server.store && (server.store[ref].version == seen.version ==> server.store[ref] == seen)
    modifies server
    ensures server.requests == old(server.requests) && Underway(server, start, made, {})
    ensures server.calls == old(server.calls) + [Updated(ref, seen, OwnedBy(seen.content, run), updated)]
    ensures updated.Success? ==>
      && old(server.store)[ref] == seen && server.store == old(server.store)[ref := updated.value]
      && updated.value.uid == seen.uid && updated.value.content == OwnedBy(seen.content, run)
  {
    ghost var store, next, touched := server.store, server.next, server.touched;
    hide Progress, LostExactly, WellFormed, TokensKept, Rely;
    updated := server.Update(ref, seen, OwnedBy(seen.content, run));
    if updated.Success? || updated.error == ReplyLost {
      UpdateIsProgress(store, next, touched, start, made, ref, server.store[ref], server.next);
    } else {
      QuietProgress(store, next, touched, start, made, server.next);
    }
  }

  /** SetOwnerReference and Update. */
  method Own(server: Server, ref: Ref, run: Object, ownable: bool, ghost resources: seq<Ref>, seen: map<Ref, Object>,
      ghost start: Start, ghost made: map<Ref, nat>)
    returns (error: Option<CreateError>, seen': map<Ref, Object>)
    requires Underway(server, start, made, {}) && Accounted(server.store, resources, seen, made, {})
    requires ref in seen && ref.kind != PipelineRun
    modifies server
    ensures server.requests == old(server.requests)
    ensures Underway(server, start, made, {})
    ensures ref in old(server.store) && old(server.store)[ref].version != seen[ref].version ==> error.Some?
    ensures old(server.calls) <= server.calls
    ensures error.None? <==> ownable && AllAccepted(old(server.calls), server.calls)
    ensures server.calls == old(server.calls) || exists answer ::
      server.calls == old(server.calls) + [Updated(ref, seen[ref], OwnedBy(seen[ref].content, run), answer)]
    ensures error.None? ==>
      && seen'.Keys == seen.Keys && seen' == seen[ref := seen'[ref]]
          && seen'[ref].content == OwnedBy(seen[ref].content, run)
      && Accounted(server.store, resources, seen', made, {})
  {
    seen' := seen;
    AcceptedReflexive(server.calls);
    hide *;
    if !ownable {
      return Some(LocalError), seen;
    }
    ghost var initial := server.store;
    Wait(server, start, made);
    ghost var store := server.store;
    WaitKeepsAccounts(initial, store, resources, seen, made, {});
    UnseenStays(initial, store, resources, seen, made, ref);
    KnownObject(store, resources, seen, made, ref);
    var updated := SendOwner(server, ref, seen[ref], run, start, made);
    OneUpdate(old(server.calls), ref, seen[ref], OwnedBy(seen[ref].content, run), updated);
    if updated.Failure? {
      return Some(Api(updated.error)), seen;
    }
    UpdatedIsAccounted(store, resources, seen, made, ref, updated.value);
    error, seen' := None, seen[ref := updated.value];
  }

  /** The dependent under `ref` is present, owned by `run`, and holds at least what it was created with. */
  predicate Dependent(store: Store, ref: Ref, content: Content, run: Object) {
    && ref in store && store[ref].content.owners == content.owners + {run.uid}
    && DataGrows(content.data, store[ref].content.data)
  }

  /** What a successful call leaves behind. */
  predicate Complete(store: Store, start: Start, inputs: Inputs, run: Object) {
    && inputs.dockerConfig.Success? && inputs.renovateConfig.Some?
    && RunRef(start.name) in store && store[RunRef(start.name)].uid == run.uid
    && store[RunRef(start.name)].content.repoHash == start.repoHash && run.content == RunContent(start.repoHash)
    && Dependent(store, SecretRef(start.name), SecretContent(inputs), run)
    && Dependent(store, ConfigRef(start.name), ConfigContent(inputs.renovateConfig.value), run)
    && (inputs.rpmKey.Some? ==> Dependent(store, RpmRef(start.name), RpmContent(inputs.rpmKey.value), run))
  }

  lemma NamesDiffer(name: string)
    ensures RpmRef(name) != SecretRef(name) && SecretRef(name) != ConfigRef(name) && ConfigRef(name) != RpmRef(name)
    ensures RunRef(name) !in {SecretRef(name), ConfigRef(name), RpmRef(name)} && RunRef(name).kind == PipelineRun
    ensures PipelineRun !in {SecretRef(name).kind, ConfigRef(name).kind, RpmRef(name).kind}
    ensures IsOurs(SecretRef(name), name) && IsOurs(ConfigRef(name), name) && IsOurs(RpmRef(name), name)
        && IsOurs(RunRef(name), name)
  {
  }

  lemma NothingAccounted(store: Store)
    ensures Accounted(store, [], map[], map[], {})
  {
  }

  lemma CompleteWhenOwned(store: Store, start: Start, inputs: Inputs, resources: seq<Ref>, seen: map<Ref, Object>,
      made: map<Ref, nat>, run: Object)
    requires Accounted(store, resources, seen, made, {})
    requires inputs.dockerConfig.Success? && inputs.renovateConfig.Some?
    requires RunRef(start.name) in seen && seen[RunRef(start.name)] == run && run.content == RunContent(start.repoHash)
    requires SecretRef(start.name) in seen && seen[SecretRef(start.name)].content == OwnedBy(SecretContent(inputs), run)
    requires ConfigRef(start.name) in seen
        && seen[ConfigRef(start.name)].content == OwnedBy(ConfigContent(inputs.renovateConfig.value), run)
    requires inputs.rpmKey.Some? ==>
      && RpmRef(start.name) in seen
      && seen[RpmRef(start.name)].content == OwnedBy(RpmContent(inputs.rpmKey.value), run)
    ensures Complete(store, start, inputs, run)
  {
  }

  /** The copies held after lines 215-298. */
  predicate DependentsMade(name: string, inputs: Inputs, rpm: bool, seen: map<Ref, Object>) {
    && inputs.dockerConfig.Success? && inputs.renovateConfig.Some?
    && seen.Keys == {SecretRef(name), ConfigRef(name)} + (if rpm then {RpmRef(name)} else {})
    && seen[SecretRef(name)].content == SecretContent(inputs)
    && seen[ConfigRef(name)].content == ConfigContent(inputs.renovateConfig.value)
    && (rpm ==> inputs.rpmKey.Some? && seen[RpmRef(name)].content == RpmContent(inputs.rpmKey.value))
  }

  lemma TwoMade(name: string, inputs: Inputs, secret: Object, config: Object)
    requires Prepared(inputs)
    requires secret.content == SecretContent(inputs)
    requires config.content == ConfigContent(inputs.renovateConfig.value)
    ensures DependentsMade(name, inputs, false, map[][SecretRef(name) := secret][ConfigRef(name) := config])
  {
    NamesDiffer(name);
  }

  lemma RpmMade(name: string, inputs: Inputs, seen: map<Ref, Object>, rpm: Object)
    requires DependentsMade(name, inputs, false, seen) && inputs.rpmKey.Some?
    requires rpm.content == RpmContent(inputs.rpmKey.value)
    ensures DependentsMade(name, inputs, true, seen[RpmRef(name) := rpm])
  {
    NamesDiffer(name);
  }

  lemma RpmNotYetMade(name: string, inputs: Inputs, seen: map<Ref, Object>)
    requires DependentsMade(name, inputs, false, seen)
    ensures RpmRef(name) !in seen && RpmRef(name).kind != PipelineRun && IsOurs(RpmRef(name), name)
  {
    NamesDiffer(name);
  }

  /** What the call needs before it creates the run. */
  predicate Prepared(inputs: Inputs) {
    (inputs.github || inputs.token.Some?) && inputs.dockerConfig.Success? && inputs.renovateConfig.Some?
  }

  /** Lines 215-274: the Renovate secret and the config map. */
  method CreateSecretAndConfig(server: Server, name: string, inputs: Inputs, ghost start: Start)
    returns (error: Option<CreateError>, resources: seq<Ref>, seen: map<Ref, Object>, ghost made: map<Ref, nat>,
        ghost lost: set<Ref>)
    requires Underway(server, start, map[], {}) && start.name == name
    modifies server
    ensures server.requests == old(server.requests)
    ensures Underway(server, start, made, lost) && Accounted(server.store, resources, seen, made, lost)
    ensures error.None? ==> lost == {} && DependentsMade(name, inputs, false, seen)
    ensures old(server.calls) <= server.calls
    ensures error.None? <==> Prepared(inputs) && AllAccepted(old(server.calls), server.calls)
    ensures AllRight(old(server.calls), server.calls, start, inputs)
  {
    ContentsAreRight(start, inputs);
    RightReflexive(server.calls, start, inputs);
    NamesDiffer(name);
    NothingAccounted(server.store);
    hide Underway, Accounted, SecretContent, ConfigContent, AllAccepted, DependentsMade, IsOurs, SecretRef, ConfigRef,
        AllRight, RightContent;
    resources, seen, made, lost := [], map[], map[], {};
    if (!inputs.github && inputs.token.None?) || inputs.dockerConfig.Failure? {
      error := Some(if !inputs.github && inputs.token.None? then LocalError else inputs.dockerConfig.error);
      return;
    }
    error, resources, seen, made, lost := CreateOne(server, SecretRef(name), SecretContent(inputs), resources, seen,
        start, made);
    CreatedRight(old(server.calls), server.calls, SecretRef(name), SecretContent(inputs), start, inputs);
    if error.Some? {
      return;
    }
    if inputs.renovateConfig.None? {
      error := Some(LocalError);
      return;
    }
    ghost var middle := server.calls;
    ghost var secret := seen[SecretRef(name)];
    error, resources, seen, made, lost := CreateOne(server, ConfigRef(name),
        ConfigContent(inputs.renovateConfig.value), resources, seen, start, made);
    AcceptedTransitive(old(server.calls), middle, server.calls);
    CreatedRight(middle, server.calls, ConfigRef(name), ConfigContent(inputs.renovateConfig.value), start, inputs);
    RightTransitive(old(server.calls), middle, server.calls, start, inputs);
    if error.None? {
      TwoMade(name, inputs, secret, seen[ConfigRef(name)]);
    }
  }

  /** Lines 276-298: the RPM secret, if the component has an activation key. */
  method CreateRpmSecret(server: Server, name: string, inputs: Inputs, resources: seq<Ref>, seen: map<Ref, Object>,
      ghost start: Start, ghost made: map<Ref, nat>)
    returns (error: Option<CreateError>, resources': seq<Ref>, seen': map<Ref, Object>, ghost made': map<Ref, nat>,
        ghost lost: set<Ref>)
    requires Underway(server, start, made, {}) && Accounted(server.store, resources, seen, made, {})
        && start.name == name
    requires DependentsMade(name, inputs, false, seen)
    modifies server
    ensures server.requests == old(server.requests)
    ensures Underway(server, start, made', lost) && Accounted(server.store, resources', seen', made', lost)
    ensures error.None? ==> lost == {} && DependentsMade(name, inputs, inputs.rpmKey.Some?, seen')
    ensures old(server.calls) <= server.calls && (error.None? <==> AllAccepted(old(server.calls), server.calls))
    ensures AllRight(old(server.calls), server.calls, start, inputs)
  {
    RpmNotYetMade(name, inputs, seen);
    ContentsAreRight(start, inputs);
    RightReflexive(server.calls, start, inputs);
    AcceptedReflexive(server.calls);
    hide *;
    error, resources', seen', made', lost := None, resources, seen, made, {};
    if inputs.rpmKey.Some? {
      error, resources', seen', made', lost := CreateOne(server, RpmRef(name), RpmContent(inputs.rpmKey.value),
          resources, seen, start, made);
      CreatedRight(old(server.calls), server.calls, RpmRef(name), RpmContent(inputs.rpmKey.value), start, inputs);
      if error.None? {
        RpmMade(name, inputs, seen, seen'[RpmRef(name)]);
      }
    }
  }

  /** The rollback list names every object made that the call knows of, once. */
  ghost predicate Listed(resources: seq<Ref>, made: map<Ref, nat>, lost: set<Ref>) {
    && (forall i, j | 0 <= i < j < |resources| :: resources[i] != resources[j])
    && made.Keys == (set r | r in resources) + lost && (set r | r in resources) !! lost
  }

  lemma AccountedIsListed(store: Store, resources: seq<Ref>, seen: map<Ref, Object>, made: map<Ref, nat>,
      lost: set<Ref>)
    requires Accounted(store, resources, seen, made, lost)
    ensures Listed(resources, made, lost)
  {
  }

  lemma OwnedRight(before: seq<Call>, middle: seq<Call>, after: seq<Call>, ref: Ref, seen: Object, run: Object,
      start: Start, inputs: Inputs)
    requires AllRight(before, middle, start, inputs)
    requires ref in {SecretRef(start.name), RpmRef(start.name), ConfigRef(start.name)}
    requires after == middle || exists answer ::
      after == middle + [Updated(ref, seen, OwnedBy(seen.content, run), answer)]
    ensures AllRight(before, after, start, inputs)
    ensures AllAccepted(before, after) <==> AllAccepted(before, middle) && AllAccepted(middle, after)
  {
    if after != middle {
      var answer :| after == middle + [Updated(ref, seen, OwnedBy(seen.content, run), answer)];
      OneRight(middle, Updated(ref, seen, OwnedBy(seen.content, run), answer), start, inputs);
      RightTransitive(before, middle, after, start, inputs);
    }
    AcceptedTransitive(before, middle, after);
  }

  /** Lines 300-444: the PipelineRun, then its ownership of every dependent. */
  method CreateRun(server: Server, name: string, repoHash: string, inputs: Inputs, resources: seq<Ref>,
      seen: map<Ref, Object>, ghost start: Start, ghost made: map<Ref, nat>)
    returns (r: Result<Object, CreateError>, resources': seq<Ref>, ghost made': map<Ref, nat>, ghost lost: set<Ref>)
    requires Underway(server, start, made, {}) && Accounted(server.store, resources, seen, made, {})
    requires start.name == name && start.repoHash == repoHash
    requires DependentsMade(name, inputs, inputs.rpmKey.Some?, seen)
    modifies server
    ensures server.requests == old(server.requests)
    ensures Underway(server, start, made', lost)
    ensures r.Success? ==> resources' == [] && lost == {} && Complete(server.store, start, inputs, r.value)
    ensures r.Failure? ==> Listed(resources', made', lost)
    ensures old(server.calls) <= server.calls
    ensures r.Success? <==> inputs.ownable && AllAccepted(old(server.calls), server.calls)
    ensures AllRight(old(server.calls), server.calls, start, inputs)
  {
    ContentsAreRight(start, inputs);
    hide AllRight, RightContent;
    NamesDiffer(name);
    hide Underway, Accounted, Listed, Complete, SecretContent, ConfigContent, RpmContent, AllAccepted, IsOurs, Refused,
        Prepared, OwnedBy;
    var error, seen';
    ghost var calls := server.calls;
    error, resources', seen', made', lost := CreateOne(server, RunRef(name), RunContent(repoHash), resources, seen,
        start, made);
    CreatedRight(calls, server.calls, RunRef(name), RunContent(repoHash), start, inputs);
    AccountedIsListed(server.store, resources', seen', made', lost);
    if error.Some? {
      return Failure(error.value), resources', made', lost;
    }
    var run := seen'[RunRef(name)];
    ghost var middle := server.calls;
    ghost var copies := seen';
    error, seen' := Own(server, SecretRef(name), run, inputs.ownable, resources', seen', start, made');
    OwnedRight(calls, middle, server.calls, SecretRef(name), copies[SecretRef(name)], run, start, inputs);
    if error.Some? {
      return Failure(error.value), resources', made', lost;
    }
    if inputs.rpmKey.Some? {
      middle := server.calls;
      copies := seen';
      error, seen' := Own(server, RpmRef(name), run, inputs.ownable, resources', seen', start, made');
      OwnedRight(calls, middle, server.calls, RpmRef(name), copies[RpmRef(name)], run, start, inputs);
      if error.Some? {
        return Failure(error.value), resources', made', lost;
      }
    }
    middle := server.calls;
    copies := seen';
    error, seen' := Own(server, ConfigRef(name), run, inputs.ownable, resources', seen', start, made');
    OwnedRight(calls, middle, server.calls, ConfigRef(name), copies[ConfigRef(name)], run, start, inputs);
    if error.Some? {
      return Failure(error.value), resources', made', lost;
    }
    CompleteWhenOwned(server.store, start, inputs, resources', seen', made', run);
    return Success(run), [], made', lost;
  }

  predicate Injective(made: map<Ref, nat>) {
    forall r, q | r in made && q in made && made[r] == made[q] :: r == q
  }

  /** The rollback has tried to delete exactly the objects in `tried`. */
  predicate RolledBack(store: Store, failedDeletes: set<nat>, made: map<Ref, nat>, tried: set<Ref>) {
    forall r | r in made ::
      && (r in store <==> r !in tried || made[r] in failedDeletes)
      && (r in store ==> store[r].uid == made[r])
      && (r !in tried ==> made[r] !in failedDeletes)
  }

  ghost predicate RollingBack(server: Server, start: Start, made: map<Ref, nat>, lost: set<Ref>, tried: set<Ref>)
    reads server
  {
    && server.Valid() && start.next <= server.next
    && TouchedOnly(server.touched, start.touched, made) && LostExactly(server.lostCreates, made, lost)
    && RunsGrewBy(start.store, server.store, RunRef(start.name), start.repoHash)
    && Injective(made) && (forall r | r in made :: made[r] < server.next)
    && RolledBack(server.store, server.failedDeletes, made, tried)
  }

  lemma DeleteIsRollback(store: Store, failedDeletes: set<nat>, touched: set<nat>, start: Start, made: map<Ref, nat>,
      tried: set<Ref>, ref: Ref)
    requires RolledBack(store, failedDeletes, made, tried) && Injective(made)
        && TouchedOnly(touched, start.touched, made)
    requires ref in made && ref !in tried
    requires RunsGrewBy(start.store, store, RunRef(start.name), start.repoHash)
    ensures var store' := map r | r in store && r != ref :: store[r];
            && RolledBack(store', failedDeletes, made, tried + {ref})
            && RunsGrewBy(start.store, store', RunRef(start.name), start.repoHash)
    ensures RolledBack(store, failedDeletes + {made[ref]}, made, tried + {ref})
    ensures TouchedOnly(touched + {made[ref]}, start.touched, made)
  {
  }

  lemma RollbackStarts(server: Server, start: Start, made: map<Ref, nat>, lost: set<Ref>)
    requires Underway(server, start, made, lost)
    ensures RollingBack(server, start, made, lost, {})
  {
  }

  /** The deferred function of lines 207-213: delete what was recorded, ignoring errors. */
  method Rollback(server: Server, resources: seq<Ref>, ghost start: Start, ghost made: map<Ref, nat>,
      ghost lost: set<Ref>, ghost inputs: Inputs)
    requires Underway(server, start, made, lost) && Listed(resources, made, lost)
    modifies server
    ensures server.requests == old(server.requests)
    ensures RollingBack(server, start, made, lost, made.Keys - lost)
    ensures AllAccepted(old(server.calls), server.calls)
    ensures AllRight(old(server.calls), server.calls, start, inputs)
  {
    RightReflexive(server.calls, start, inputs);
    ghost var tried: set<Ref> := {};
    RollbackStarts(server, start, made, lost);
    hide RollingBack, Underway, AllAccepted;
    AcceptedReflexive(server.calls);
    for i := 0 to |resources|
      invariant RollingBack(server, start, made, lost, tried) && server.requests == old(server.requests)
      invariant AllAccepted(old(server.calls), server.calls)
      invariant AllRight(old(server.calls), server.calls, start, inputs)
      invariant forall j | 0 <= j < |resources| :: resources[j] in tried <==> j < i
      invariant forall r | r in tried :: r in resources
    {
      ghost var middle := server.calls;
      RollbackOne(server, resources[i], start, made, lost, tried);
      ghost var ok :| server.calls == middle + [Deleted(resources[i], ok)];
      OneCall(middle, Deleted(resources[i], ok));
      AcceptedTransitive(old(server.calls), middle, server.calls);
      assert RightCall(Deleted(resources[i], ok), start.name, start.repoHash, inputs) by {
        assert IsOurs(resources[i], start.name);
      }
      OneRight(middle, Deleted(resources[i], ok), start, inputs);
      RightTransitive(old(server.calls), middle, server.calls, start, inputs);
      tried := tried + {resources[i]};
    }
    assert tried == made.Keys - lost;
  }

  method RollbackOne(server: Server, ref: Ref, ghost start: Start, ghost made: map<Ref, nat>, ghost lost: set<Ref>,
      ghost tried: set<Ref>)
    requires RollingBack(server, start, made, lost, tried) && ref in made && ref !in tried
    modifies server
    ensures server.requests == old(server.requests)
    ensures RollingBack(server, start, made, lost, tried + {ref})
    ensures exists ok :: server.calls == old(server.calls) + [Deleted(ref, ok)]
  {
    server.Interfere(made.Keys, true);
    ghost var store, touched, failedDeletes := server.store, server.touched, server.failedDeletes;
    assert RolledBack(store, failedDeletes, made, tried);
    DeleteIsRollback(store, failedDeletes, touched, start, made, tried, ref);
    var ok := server.Delete(ref);
  }

  /**
   The transaction of createPipelineRun under a name and a hash. On failure, what is left of the objects
   it made is exactly those whose creation was never reported to it and those whose deletion failed; on
   success every dependent is present and owned by the run. Either way it wrote to or deleted only objects
   it had made, and (by Valid) no token the event reconciler wrote is missing from a secret that still exists.
   */
  method CreateOrRollBack(server: Server, name: string, repoHash: string, inputs: Inputs)
    returns (r: Result<Object, CreateError>, ghost made: map<Ref, nat>)
    requires server.Valid()
    modifies server
    ensures server.requests == old(server.requests)
    ensures server.Valid() && old(server.next) <= server.next
    ensures forall q | q in made :: IsOurs(q, name) && old(server.next) <= made[q]
    ensures TouchedOnly(server.touched, old(server.touched), made)
    ensures RunsGrewBy(old(server.store), server.store, RunRef(name), repoHash)
    ensures r.Success? ==>
      && Complete(server.store, Start(name, repoHash, old(server.store), old(server.next), old(server.touched)),
          inputs, r.value)
      && forall q | q in made :: q in server.store && server.store[q].uid == made[q]
    ensures old(server.calls) <= server.calls
    ensures r.Success? <==> Prepared(inputs) && inputs.ownable && AllAccepted(old(server.calls), server.calls)
    ensures AllRight(old(server.calls), server.calls,
      Start(name, repoHash, old(server.store), old(server.next), old(server.touched)), inputs)
    ensures r.Success? ==> StoreHolds(server.store, name, inputs)
    ensures r.Failure? ==>
      forall q | q in made :: q in server.store <==> made[q] in server.lostCreates + server.failedDeletes
  {
    ghost var start := Start(name, repoHash, server.store, server.next, server.touched);
    ghost var lost;
    var error, resources, seen;
    hide AllAccepted, AllRight;
    error, resources, seen, made, lost := CreateSecretAndConfig(server, name, inputs, start);
    ghost var middle := server.calls;
    if error.None? {
      error, resources, seen, made, lost := CreateRpmSecret(server, name, inputs, resources, seen, start, made);
      AcceptedTransitive(old(server.calls), middle, server.calls);
      RightTransitive(old(server.calls), middle, server.calls, start, inputs);
    }
    if error.Some? {
      r := Failure(error.value);
    } else {
      middle := server.calls;
      r, resources, made, lost := CreateRun(server, name, repoHash, inputs, resources, seen, start, made);
      AcceptedTransitive(old(server.calls), middle, server.calls);
      RightTransitive(old(server.calls), middle, server.calls, start, inputs);
      if r.Success? {
        CompleteHolds(server.store, start, inputs, r.value);
      }
    }
    if r.Failure? {
      middle := server.calls;
      Rollback(server, resources, start, made, lost, inputs);
      AcceptedTransitive(old(server.calls), middle, server.calls);
      RightTransitive(old(server.calls), middle, server.calls, start, inputs);
      assert RolledBack(server.store, server.failedDeletes, made, made.Keys - lost);
    }
  }

  /** What the stored objects hold after a success, tokens filled in later aside. */
  predicate StoreHolds(store: Store, name: string, inputs: Inputs) {
    && Prepared(inputs)
    && Ref(Secret, name) in store && Ref(ConfigMap, name) in store
    && (var data := store[Ref(Secret, name)].content.data;
        && (!inputs.github ==> TOKEN_KEY in data && data[TOKEN_KEY] == inputs.token.value)
        && (inputs.dockerConfig.value.Some? ==>
              DOCKER_KEY in data && data[DOCKER_KEY] == inputs.dockerConfig.value.value))
    && (var data := store[Ref(ConfigMap, name)].content.data;
        "config.js" in data && data["config.js"] == "module.exports = " + inputs.renovateConfig.value)
    && (inputs.rpmKey.Some? ==>
          && Ref(Secret, name + "-rpm-key") in store
          && var data := store[Ref(Secret, name + "-rpm-key")].content.data;
             && "activationkey" in data && data["activationkey"] == inputs.rpmKey.value.0
             && "org" in data && data["org"] == inputs.rpmKey.value.1)
  }

  lemma CompleteHolds(store: Store, start: Start, inputs: Inputs, run: Object)
    requires Complete(store, start, inputs, run) && Prepared(inputs)
    ensures StoreHolds(store, start.name, inputs)
  {
    KeysDiffer();
    assert TOKEN_KEY in SecretContent(inputs).data <==> !inputs.github;
    assert "config.js" in ConfigContent(inputs.renovateConfig.value).data;
    if inputs.rpmKey.Some? {
      var data := RpmContent(inputs.rpmKey.value).data;
      assert "activationkey" in data && "org" in data;
    }
  }

  function RepoHash(c: FilteredComponents.Component, branch: string, hash: string -> string): (r: string)
    ensures r == hash(c.host + "/" + c.repository + "@" + branch)
  {
    hash(RepoIdentity.BranchKey(c.host, c.repository, branch))
  }

  predicate Collides(hash: string -> string, a: string, b: string) {
    a != b && hash(a) == hash(b)
  }

  /** Two branches share a label only if they are the same branch of the same repository or the hash collides. */
  lemma SameHashIff(c: FilteredComponents.Component, branch: string, d: FilteredComponents.Component, other: string,
      hash: string -> string)
    requires '/' !in c.host && '/' !in d.host && '@' !in c.repository && '@' !in d.repository
    ensures RepoHash(c, branch, hash) == RepoHash(d, other, hash)
      <==> || (c.host == d.host && c.repository == d.repository && branch == other)
           || Collides(hash, c.host + "/" + c.repository + "@" + branch, d.host + "/" + d.repository + "@" + other)
  {
    if RepoIdentity.BranchKey(c.host, c.repository, branch) == RepoIdentity.BranchKey(d.host, d.repository, other) {
      RepoIdentity.BranchKeyInjective(c.host, c.repository, branch, d.host, d.repository, other);
    }
  }

  function UidOf(r: Result<Object, CreateError>): Option<nat> {
    match r
    case Success(run) => Some(run.uid)
    case Failure(_) => None
  }

  /** createPipelineRun: the transaction under the label of this component and branch, logged as an attempt. */
  method CreatePipelineRun(server: Server, name: string, c: FilteredComponents.Component, branch: string,
      hash: string -> string, inputs: Inputs)
    returns (r: Result<Object, CreateError>, ghost made: map<Ref, nat>)
    requires server.Valid()
    modifies server
    ensures server.Valid() && old(server.next) <= server.next
    ensures server.requests
      == old(server.requests) + [Attempted(c, branch, RepoHash(c, branch, hash), name, UidOf(r))]
    ensures forall q | q in made :: IsOurs(q, name) && old(server.next) <= made[q]
    ensures TouchedOnly(server.touched, old(server.touched), made)
    ensures RunsGrewBy(old(server.store), server.store, RunRef(name), RepoHash(c, branch, hash))
    ensures r.Success? ==>
      var start := Start(name, RepoHash(c, branch, hash), old(server.store), old(server.next), old(server.touched));
      && Complete(server.store, start, inputs, r.value)
      && forall q | q in made :: q in server.store && server.store[q].uid == made[q]
    ensures old(server.calls) <= server.calls
    ensures r.Success? <==> Prepared(inputs) && inputs.ownable && AllAccepted(old(server.calls), server.calls)
    ensures forall k | |old(server.calls)| <= k < |server.calls| ::
      RightCall(server.calls[k], name, RepoHash(c, branch, hash), inputs)
    ensures r.Success? ==> StoreHolds(server.store, name, inputs)
    ensures r.Failure? ==>
      forall q | q in made :: q in server.store <==> made[q] in server.lostCreates + server.failedDeletes
  {
    r, made := CreateOrRollBack(server, name, RepoHash(c, branch, hash), inputs);
    server.requests := server.requests + [Attempted(c, branch, RepoHash(c, branch, hash), name, UidOf(r))];
  }
}
