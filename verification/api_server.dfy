/**
 The Kubernetes API server as the reconcilers see it: an object store in which Update is a
 compare-and-swap on the resource version. Every request may fail, and a request that changes the
 store may take effect and still be reported as failed (the reply is lost).

 Between two requests of one reconciler the rest of the cluster may act; `Interfere` stands for any
 number of such actions, and `Rely` says what they may do.
 */
module ApiServer {
  import opened Wrappers
  import FilteredComponents

  datatype Kind = Secret | ConfigMap | PipelineRun | ClusterEvent

  datatype Ref = Ref(kind: Kind, name: string)

  datatype Status = True | False | Unknown

  datatype Condition = Condition(kind: string, status: Status)

  /**
   What a client sends; `data` are the keys of a secret or config map, or the annotations of an event,
   `repoHash` is the repo-branch hash label of a PipelineRun and `cancelled` its request to stop.
   */
  datatype Content = Content(
    data: map<string, string>, repoHash: string, conditions: seq<Condition>, owners: set<nat>, cancelled: bool)

  datatype Object = Object(uid: nat, version: nat, content: Content)

  type Store = map<Ref, Object>

  datatype ApiError = Rejected | Conflict | NotFound | AlreadyExists | ReplyLost

  /** The event reconciler put `token` into the secret with this uid. */
  datatype TokenWrite = TokenWrite(uid: nat, token: string)

  const TOKEN_KEY := "renovate-token"
  const PROCESSED := "mintmaker.appstudio.redhat.com/processed"

  /** What a patch sets: an annotation, or the cancellation of a PipelineRun that was read with these conditions. */
  datatype Change = Annotate(key: string, value: string) | Cancel(seen: seq<Condition>)

  /** The requests of the reconcilers that the store does not remember, in the order they were answered. */
  datatype Request =
    | Listed(repoHash: string, runs: Option<map<Ref, seq<Condition>>>)
    | Attempted(component: FilteredComponents.Component, branch: string, repoHash: string, name: string,
        run: Option<nat>)
    | Patched(ref: Ref, change: Change, took: bool)

  /** Tekton's verdict: the first "Succeeded" condition, if it is not Unknown. */
  function Completed(conditions: seq<Condition>): bool {
    if conditions == [] then false
    else if conditions[0].kind == "Succeeded" then conditions[0].status != Unknown
    else Completed(conditions[1..])
  }

  /** The requests of the reconcilers for one object, with their answers. */
  datatype Call =
    | Got(ref: Ref, answer: Result<Object, ApiError>)
    | Created(ref: Ref, content: Content, answer: Result<Object, ApiError>)
    | Updated(ref: Ref, seen: Object, content: Content, answer: Result<Object, ApiError>)
    | Deleted(ref: Ref, ok: bool)

  /** By position: the first condition of type Succeeded is True or False. */
  predicate HasVerdict(conditions: seq<Condition>) {
    exists i ::
      && 0 <= i < |conditions| && conditions[i].kind == "Succeeded" && conditions[i].status != Unknown
      && forall j | 0 <= j < i :: conditions[j].kind != "Succeeded"
  }

  lemma {:induction false} CompletedIffVerdict(conditions: seq<Condition>)
    ensures Completed(conditions) <==> HasVerdict(conditions)
  {
    if conditions != [] {
      var rest := conditions[1..];
      CompletedIffVerdict(rest);
      if conditions[0].kind != "Succeeded" {
        if HasVerdict(rest) {
          var i :| 0 <= i < |rest| && rest[i].kind == "Succeeded" && rest[i].status != Unknown
            && forall j | 0 <= j < i :: rest[j].kind != "Succeeded";
          assert conditions[i + 1] == rest[i];
          assert forall j | 0 <= j < i + 1 :: conditions[j] == if j == 0 then conditions[0] else rest[j - 1];
        }
        if HasVerdict(conditions) {
          var i :| 0 <= i < |conditions| && conditions[i].kind == "Succeeded" && conditions[i].status != Unknown
            && forall j | 0 <= j < i :: conditions[j].kind != "Succeeded";
          assert rest[i - 1] == conditions[i] && forall j | 0 <= j < i - 1 :: rest[j] == conditions[j + 1];
        }
      } else if conditions[0].status != Unknown {
        assert HasVerdict(conditions);
      }
    }
  }

  function WithoutSucceeded(conditions: seq<Condition>): seq<Condition> {
    if conditions == [] then []
    else (if conditions[0].kind == "Succeeded" then [] else [conditions[0]]) + WithoutSucceeded(conditions[1..])
  }

  /** MarkFailed: the verdict becomes False, whatever it was. */
  function MarkFailed(conditions: seq<Condition>): seq<Condition> {
    WithoutSucceeded(conditions) + [Condition("Succeeded", False)]
  }

  lemma {:induction false} MarkFailedCompletes(conditions: seq<Condition>)
    ensures Completed(MarkFailed(conditions))
  {
    if conditions != [] {
      MarkFailedCompletes(conditions[1..]);
      var marked := MarkFailed(conditions);
      if conditions[0].kind == "Succeeded" {
        assert marked == MarkFailed(conditions[1..]);
      } else {
        assert marked == [conditions[0]] + MarkFailed(conditions[1..]);
        assert marked[1..] == MarkFailed(conditions[1..]);
      }
    }
  }

  /** Of the conditions that are not about success none is lost or added, and one verdict is left, which is False. */
  lemma {:induction false} MarkFailedKeepsOthers(conditions: seq<Condition>, c: Condition)
    ensures multiset(MarkFailed(conditions))[c]
      == if c.kind != "Succeeded" then multiset(conditions)[c] else if c.status == False then 1 else 0
  {
    if conditions != [] {
      var rest := conditions[1..];
      MarkFailedKeepsOthers(rest, c);
      assert conditions == [conditions[0]] + rest;
      if conditions[0].kind == "Succeeded" {
        assert MarkFailed(conditions) == MarkFailed(rest);
      } else {
        assert MarkFailed(conditions) == [conditions[0]] + MarkFailed(rest);
      }
    } else {
      assert MarkFailed(conditions) == [Condition("Succeeded", False)];
    }
  }

  /** The server may ignore the status part of a patch; the rest goes onto whatever is stored. */
  function ApplyChange(content: Content, change: Change, statusToo: bool): Content {
    match change
    case Annotate(key, value) => content.(data := content.data[key := value])
    case Cancel(seen) =>
      content.(cancelled := true, conditions := if statusToo then MarkFailed(seen) else content.conditions)
  }

  function RunsWith(store: Store, repoHash: string): map<Ref, seq<Condition>> {
    map r | r in store && r.kind == PipelineRun && store[r].content.repoHash == repoHash :: store[r].content.conditions
  }

  predicate WellFormed(store: Store, next: nat) {
    && (forall r | r in store :: store[r].uid < next && store[r].version < next)
    && (forall r, q | r in store && q in store && store[r].uid == store[q].uid :: r == q)
  }

  /** Every token the event reconciler wrote is still in its secret, for as long as the secret exists. */
  ghost predicate TokensKept(store: Store, next: nat, writes: set<TokenWrite>) {
    && (forall w | w in writes :: w.uid < next)
    && (forall r, w | r in store && w in writes && w.uid == store[r].uid ::
          TOKEN_KEY in store[r].content.data && store[r].content.data[TOKEN_KEY] == w.token)
  }

  predicate IsActiveRun(store: Store, r: Ref, repoHash: string) {
    r in store && r.kind == PipelineRun && store[r].content.repoHash == repoHash
        && !Completed(store[r].content.conditions)
  }

  ghost predicate AtMostOneActive(store: Store) {
    forall r, q, h | IsActiveRun(store, r, h) && IsActiveRun(store, q, h) :: r == q
  }

  predicate DataGrows(data: map<string, string>, data': map<string, string>) {
    forall k | k in data :: k in data' && data'[k] == data[k]
  }

  /** The objects under `mine` keep their identity, label, owners and data; a changed object has a newer version. */
  predicate KeepsMine(store: Store, store': Store, mine: set<Ref>) {
    forall r | r in mine ::
      && (r in store' <==> r in store)
      && (r in store ==>
            && store'[r].uid == store[r].uid
            && store'[r].version >= store[r].version
            && (store'[r].version == store[r].version ==> store'[r] == store[r])
            && store'[r].content.owners == store[r].content.owners
                && store'[r].content.repoHash == store[r].content.repoHash
            && DataGrows(store[r].content.data, store'[r].content.data))
  }

  /** Only serialised passes create PipelineRuns, labels do not change, and completion is permanent. */
  predicate NoNewRuns(store: Store, store': Store) {
    forall r | r in store' && r.kind == PipelineRun ::
      && r in store && store'[r].uid == store[r].uid
      && store'[r].content.repoHash == store[r].content.repoHash
      && (Completed(store[r].content.conditions) ==> Completed(store'[r].content.conditions))
  }

  /** Nothing gets a uid that was used before for something else. */
  predicate FreshUids(store: Store, next: nat, store': Store) {
    forall r | r in store' :: store'[r].uid >= next || (r in store && store[r].uid == store'[r].uid)
  }

  /** Every write gives the object a version never used before. */
  predicate FreshVersions(store: Store, next: nat, store': Store) {
    forall r | r in store' :: store'[r].version >= next || (r in store && store'[r] == store[r])
  }

  /**
   What anyone but the running reconciler may do to the store. `mine` are the objects under names drawn
   for the running call; `creator` says that it is a pass of the one controller that creates PipelineRuns.
   */
  ghost predicate Rely(store: Store, next: nat, writes: set<TokenWrite>, store': Store, next': nat,
      writes': set<TokenWrite>, mine: set<Ref>, creator: bool) {
    && next <= next' && WellFormed(store', next') && TokensKept(store', next', writes')
    && writes <= writes'
    && KeepsMine(store, store', mine) && (creator ==> NoNewRuns(store, store'))
    && FreshUids(store, next, store') && FreshVersions(store, next, store')
  }

  lemma RelyTransitive(s0: Store, n0: nat, w0: set<TokenWrite>, s1: Store, n1: nat, w1: set<TokenWrite>, s2: Store,
      n2: nat, w2: set<TokenWrite>, mine: set<Ref>, creator: bool)
    requires Rely(s0, n0, w0, s1, n1, w1, mine, creator) && Rely(s1, n1, w1, s2, n2, w2, mine, creator)
    ensures Rely(s0, n0, w0, s2, n2, w2, mine, creator)
  {
  }

  lemma RelyReflexive(store: Store, next: nat, writes: set<TokenWrite>, mine: set<Ref>, creator: bool)
    requires WellFormed(store, next) && TokensKept(store, next, writes)
    ensures Rely(store, next, writes, store, next, writes, mine, creator)
  {
  }

  /** Every successful request of a reconciler is something the others rely on it to do: a create or update ... */
  lemma PutIsWithinRely(store: Store, next: nat, writes: set<TokenWrite>, ref: Ref, item: Object, next': nat)
    requires WellFormed(store, next) && TokensKept(store, next, writes)
    requires next <= item.version < next'
    requires if ref in store
             then item.uid == store[ref].uid && (TOKEN_KEY in store[ref].content.data ==>
                    TOKEN_KEY in item.content.data
                        && item.content.data[TOKEN_KEY] == store[ref].content.data[TOKEN_KEY])
             else next <= item.uid < next'
    ensures Rely(store, next, writes, store[ref := item], next', writes, {}, false)
    ensures WellFormed(store[ref := item], next') && TokensKept(store[ref := item], next', writes)
  {
  }

  /** ... and a delete. */
  lemma DeleteIsWithinRely(store: Store, next: nat, writes: set<TokenWrite>, ref: Ref)
    requires WellFormed(store, next) && TokensKept(store, next, writes)
    ensures var store' := map r | r in store && r != ref :: store[r];
            Rely(store, next, writes, store', next, writes, {}, false)
            && WellFormed(store', next) && TokensKept(store', next, writes)
  {
  }

  /** A cancellation of any run at any moment is something a running pass allows for. */
  lemma CancelIsWithinRely(store: Store, next: nat, writes: set<TokenWrite>, ref: Ref, seen: seq<Condition>,
      statusToo: bool, mine: set<Ref>, creator: bool)
    requires WellFormed(store, next) && TokensKept(store, next, writes) && ref in store && ref.kind == PipelineRun
    ensures var item := Object(store[ref].uid, next, ApplyChange(store[ref].content, Cancel(seen), statusToo));
            && Rely(store, next, writes, store[ref := item], next + 1, writes, mine, creator)
            && WellFormed(store[ref := item], next + 1) && TokensKept(store[ref := item], next + 1, writes)
            && item.content.cancelled && item.content.repoHash == store[ref].content.repoHash
            && (Completed(store[ref].content.conditions) || statusToo ==> Completed(item.content.conditions))
  {
    MarkFailedCompletes(seen);
    hide MarkFailed, Completed;
  }

  /** So is marking an event, which no pass has made. */
  lemma MarkIsWithinRely(store: Store, next: nat, writes: set<TokenWrite>, ref: Ref, value: string,
      mine: set<Ref>, creator: bool)
    requires WellFormed(store, next) && TokensKept(store, next, writes) && ref in store && ref.kind == ClusterEvent
    requires ref !in mine
    ensures var content := ApplyChange(store[ref].content, Annotate(PROCESSED, value), false);
            var item := Object(store[ref].uid, next, content);
            && Rely(store, next, writes, store[ref := item], next + 1, writes, mine, creator)
            && WellFormed(store[ref := item], next + 1) && TokensKept(store[ref := item], next + 1, writes)
  {
    KeysDiffer();
  }

  predicate Fits(ref: Ref, change: Change) {
    if change.Cancel? then ref.kind == PipelineRun else ref.kind == ClusterEvent && change.key == PROCESSED
  }

  lemma PatchIsWithinRely(store: Store, next: nat, writes: set<TokenWrite>, ref: Ref, change: Change, statusToo: bool)
    requires WellFormed(store, next) && TokensKept(store, next, writes) && ref in store && Fits(ref, change)
    ensures var item := Object(store[ref].uid, next, ApplyChange(store[ref].content, change, statusToo));
            && Rely(store, next, writes, store[ref := item], next + 1, writes, {}, true)
            && WellFormed(store[ref := item], next + 1) && TokensKept(store[ref := item], next + 1, writes)
  {
    hide Rely, WellFormed, TokensKept;
    if change.Cancel? {
      CancelIsWithinRely(store, next, writes, ref, change.seen, statusToo, {}, true);
    } else {
      MarkIsWithinRely(store, next, writes, ref, change.value, {}, true);
      assert ApplyChange(store[ref].content, change, statusToo) == ApplyChange(store[ref].content, change, false);
    }
  }

  lemma KeysDiffer()
    ensures PROCESSED != TOKEN_KEY
  {
    assert |PROCESSED| > |TOKEN_KEY|;
  }

  class Server {
    var store: Store
    var next: nat
    ghost var writes: set<TokenWrite>
    /** uids of the objects that the running reconciler wrote to or deleted */
    ghost var touched: set<nat>
    /** uids of the objects it created without being told, and of those it failed to delete */
    ghost var lostCreates: set<nat>
    ghost var failedDeletes: set<nat>
    ghost var requests: seq<Request>
    ghost var calls: seq<Call>

    ghost predicate Valid() reads this {
      && WellFormed(store, next) && TokensKept(store, next, writes)
      && (forall u | u in lostCreates :: u < next)
      && (forall u | u in failedDeletes :: u < next)
    }

    /** Any number of steps by the rest of the cluster. Callers see only the contract; doing nothing meets it too. */
    method Interfere(ghost mine: set<Ref>, ghost creator: bool)
      requires Valid()
      modifies this
      ensures Valid() && touched == old(touched) && lostCreates == old(lostCreates)
          && failedDeletes == old(failedDeletes) && requests == old(requests) && calls == old(calls)
      ensures Rely(old(store), old(next), old(writes), store, next, writes, mine, creator)
    {
    }

    /** What a create or update does when it takes effect: the object gets the next version. */
    method Put(ref: Ref, item: Object)
      requires Valid() && item.version == next
      requires if ref in store
               then item.uid == store[ref].uid && (TOKEN_KEY in store[ref].content.data ==>
                      TOKEN_KEY in item.content.data
                          && item.content.data[TOKEN_KEY] == store[ref].content.data[TOKEN_KEY])
               else item.uid == next
      modifies `store, `next, `touched
      ensures Valid() && next == old(next) + 1 && store == old(store)[ref := item]
      ensures touched == old(touched) + {item.uid}
      ensures Rely(old(store), old(next), old(writes), store, next, writes, {}, false)
    {
      PutIsWithinRely(store, next, writes, ref, item, next + 1);
      hide Rely, WellFormed, TokensKept;
      store := store[ref := item];
      touched := touched + {item.uid};
      next := next + 1;
    }

    method Create(ref: Ref, content: Content) returns (r: Result<Object, ApiError>)
      requires Valid()
      modifies this
      ensures Valid() && writes == old(writes) && next >= old(next) && failedDeletes == old(failedDeletes)
          && requests == old(requests) && calls == old(calls) + [Created(ref, content, r)]
      ensures Rely(old(store), old(next), old(writes), store, next, writes, {}, false)
      ensures lostCreates ==
        if r == Failure(ReplyLost) && ref in store then old(lostCreates) + {store[ref].uid} else old(lostCreates)
      ensures r.Success? ==>
        && ref !in old(store) && old(next) <= r.value.uid < next && r.value.content == content
        && store == old(store)[ref := r.value] && touched == old(touched) + {r.value.uid}
      ensures r.Failure? && r.error == ReplyLost ==>
        && ref !in old(store) && ref in store && store == old(store)[ref := store[ref]]
        && old(next) <= store[ref].uid < next && store[ref].content == content
        && touched == old(touched) + {store[ref].uid}
      ensures r.Failure? && r.error != ReplyLost ==> store == old(store) && touched == old(touched)
    {
      RelyReflexive(store, next, writes, {}, false);
      hide Rely, WellFormed, TokensKept;
      var rejected: bool, lost: bool := *, *;
      if rejected || ref in store {
        r := Failure(if rejected then Rejected else AlreadyExists);
        calls := calls + [Created(ref, content, r)];
        return;
      }
      var created := Object(next, next, content);
      Put(ref, created);
      if lost {
        lostCreates := lostCreates + {created.uid};
      }
      r := if lost then Failure(ReplyLost) else Success(created);
      calls := calls + [Created(ref, content, r)];
    }

    /** Compare-and-swap on the version of `seen`, the caller's copy. */
    method Update(ref: Ref, seen: Object, content: Content) returns (r: Result<Object, ApiError>)
      requires Valid()
      requires TOKEN_KEY in seen.content.data ==>
                 TOKEN_KEY in content.data && content.data[TOKEN_KEY] == seen.content.data[TOKEN_KEY]
      requires ref in store && store[ref].version == seen.version ==> store[ref] == seen
      modifies this
      ensures Valid() && writes == old(writes) && next >= old(next) && lostCreates == old(lostCreates)
          && failedDeletes == old(failedDeletes) && requests == old(requests)
          && calls == old(calls) + [Updated(ref, seen, content, r)]
      ensures Rely(old(store), old(next), old(writes), store, next, writes, {}, false)
      ensures r.Success? || r.error == ReplyLost ==>
        && ref in old(store) && old(store)[ref] == seen
        && ref in store && store[ref].uid == seen.uid && store[ref].content == content
        && store[ref].version >= old(next)
        && store == old(store)[ref := store[ref]] && touched == old(touched) + {seen.uid}
      ensures r.Success? ==> r.value == store[ref]
      ensures r.Failure? && r.error != ReplyLost ==> store == old(store) && touched == old(touched)
    {
      RelyReflexive(store, next, writes, {}, false);
      hide Rely, WellFormed, TokensKept;
      var rejected: bool, lost: bool := *, *;
      if rejected || ref !in store || store[ref].version != seen.version {
        r := Failure(if rejected then Rejected else if ref !in store then NotFound else Conflict);
        calls := calls + [Updated(ref, seen, content, r)];
        return;
      }
      var updated := Object(seen.uid, next, content);
      Put(ref, updated);
      r := if lost then Failure(ReplyLost) else Success(updated);
      calls := calls + [Updated(ref, seen, content, r)];
    }

    /** Delete goes by name alone; a missing object counts as deleted. */
    method Delete(ref: Ref) returns (ok: bool)
      requires Valid()
      modifies this
      ensures Valid() && writes == old(writes) && next == old(next) && lostCreates == old(lostCreates)
          && requests == old(requests) && calls == old(calls) + [Deleted(ref, ok)]
      ensures Rely(old(store), old(next), old(writes), store, next, writes, {}, false)
      ensures failedDeletes == if !ok && ref in store then old(failedDeletes) + {store[ref].uid} else old(failedDeletes)
      ensures store == if ok then map r | r in old(store) && r != ref :: old(store)[r] else old(store)
      ensures touched == if ok && ref in old(store) then old(touched) + {old(store)[ref].uid} else old(touched)
    {
      RelyReflexive(store, next, writes, {}, false);
      hide Rely, TokensKept;
      var rejected: bool := *;
      if rejected {
        if ref in store {
          failedDeletes := failedDeletes + {store[ref].uid};
        }
        calls := calls + [Deleted(ref, false)];
        return false;
      }
      DeleteIsWithinRely(store, next, writes, ref);
      if ref in store {
        touched := touched + {store[ref].uid};
        store := map r | r in store && r != ref :: store[r];
      }
      calls := calls + [Deleted(ref, true)];
      return true;
    }

    method Get(ref: Ref) returns (r: Result<Object, ApiError>)
      requires Valid()
      modifies this`calls
      ensures Valid() && calls == old(calls) + [Got(ref, r)]
      ensures match r
        case Success(item) => ref in store && item == store[ref]
        case Failure(error) => error == Rejected || (error == NotFound && ref !in store)
    {
      var rejected: bool := *;
      r := if rejected then Failure(Rejected) else if ref in store then Success(store[ref]) else Failure(NotFound);
      calls := calls + [Got(ref, r)];
    }

    /** A patch names no version; what it does not mention stays as it is stored. */
    method Patch(ref: Ref, change: Change) returns (ok: bool, ghost took: bool)
      requires Valid()
      requires Fits(ref, change)
      modifies this
      ensures Valid() && writes == old(writes) && next >= old(next) && lostCreates == old(lostCreates)
          && failedDeletes == old(failedDeletes) && calls == old(calls)
      ensures requests == old(requests) + [Patched(ref, change, took)]
      ensures ok ==> took
      ensures took ==>
        && ref in old(store) && ref in store && store == old(store)[ref := store[ref]]
        && store[ref].uid == old(store)[ref].uid
        && (store[ref].content == ApplyChange(old(store)[ref].content, change, true)
            || store[ref].content == ApplyChange(old(store)[ref].content, change, false))
        && touched == old(touched) + {store[ref].uid}
      ensures !took ==> store == old(store) && touched == old(touched)
      ensures Rely(old(store), old(next), old(writes), store, next, writes, {}, true)
    {
      RelyReflexive(store, next, writes, {}, true);
      hide Rely, TokensKept, ApplyChange, Completed;
      var rejected: bool, lost: bool, statusToo: bool := *, *, *;
      took := false;
      if rejected || ref !in store {
        requests := requests + [Patched(ref, change, false)];
        return false, false;
      }
      var patched := Object(store[ref].uid, next, ApplyChange(store[ref].content, change, statusToo));
      PatchIsWithinRely(store, next, writes, ref, change, statusToo);
      store := store[ref := patched];
      next := next + 1;
      touched := touched + {patched.uid};
      requests := requests + [Patched(ref, change, true)];
      return !lost, true;
    }

    /** List of the PipelineRuns with a hash; None when the request fails. */
    method ListRuns(repoHash: string) returns (runs: Option<map<Ref, seq<Condition>>>)
      requires Valid()
      modifies this`requests
      ensures Valid() && requests == old(requests) + [Listed(repoHash, runs)]
      ensures runs.Some? ==> runs.value == RunsWith(store, repoHash)
    {
      var rejected: bool := *;
      runs := if rejected then None else Some(RunsWith(store, repoHash));
      requests := requests + [Listed(repoHash, runs)];
    }
  }
}
