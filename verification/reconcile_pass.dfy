/**
 One pass of DependencyUpdateCheckReconciler over the components it gathered, and the invariant the
 passes keep: at most one active PipelineRun per repo-branch hash. Passes are serialised and read the
 current store; everything else in the cluster interleaves freely.
 */
module ReconcilePass {
  import opened Wrappers
  import opened ApiServer
  import opened CreateTransaction
  import opened FilteredComponents
  import opened FirstWins
  import opened RepoIdentity

  type Candidate = Item<string, (Component, string)>

  type Runs = map<Ref, seq<Condition>>

  /** What became of a branch: the runs could not be listed, one of them was active, or a creation was tried. */
  datatype Decision =
    | NotListed
    | Skipped(runs: Runs)
    | Tried(runs: Runs, name: string, result: Result<Object, CreateError>)

  predicate SomeActive(runs: Runs) {
    exists r :: r in runs && !Completed(runs[r])
  }

  predicate Sound(decision: Decision) {
    match decision
    case NotListed => true
    case Skipped(runs) => SomeActive(runs)
    case Tried(runs, _, _) => !SomeActive(runs)
  }

  /** The requests a decision stands for. */
  function RequestsOf(item: Candidate, decision: Decision, hash: string -> string): seq<Request> {
    var (c, branch) := item.1;
    var repoHash := RepoHash(c, branch, hash);
    match decision
    case NotListed => [Listed(repoHash, None)]
    case Skipped(runs) => [Listed(repoHash, Some(runs))]
    case Tried(runs, name, r) => [Listed(repoHash, Some(runs)), Attempted(c, branch, repoHash, name, UidOf(r))]
  }

  function Trace(decided: seq<Candidate>, decisions: seq<Decision>, hash: string -> string): seq<Request>
    requires |decided| == |decisions|
  {
    if decided == [] then []
    else
      var n := |decided| - 1;
      Trace(decided[..n], decisions[..n], hash) + RequestsOf(decided[n], decisions[n], hash)
  }

  // ----- Which branches a pass considers -----

  function BranchCandidates(c: Component, branches: seq<string>): seq<Candidate> {
    if branches == [] then []
    else BranchCandidates(c, branches[..|branches| - 1])
         + [(BranchKey(c.host, c.repository, branches[|branches| - 1]), (c, branches[|branches| - 1]))]
  }

  function ComponentCandidates(c: Component): seq<Candidate> {
    if c.disabled || !c.usable || c.branches.None? then [] else BranchCandidates(c, c.branches.value)
  }

  function Candidates(components: seq<Component>): seq<Candidate> {
    if components == [] then []
    else Candidates(components[..|components| - 1]) + ComponentCandidates(components[|components| - 1])
  }

  lemma {:induction false} BranchCandidatesExact(c: Component, branches: seq<string>, item: Candidate)
    ensures item in BranchCandidates(c, branches)
      <==> exists branch :: branch in branches && item == (c.host + "/" + c.repository + "@" + branch, (c, branch))
  {
    if branches != [] {
      var n := |branches| - 1;
      BranchCandidatesExact(c, branches[..n], item);
      assert branches == branches[..n] + [branches[n]];
    }
  }

  /**
   A pass considers exactly the branches of the components that are not disabled, can be built and whose
   branches can be listed.
   */
  lemma {:induction false} CandidatesExact(components: seq<Component>, item: Candidate)
    ensures item in Candidates(components)
      <==> var c := item.1.0;
           && c in components && !c.disabled && c.usable && c.branches.Some? && item.1.1 in c.branches.value
           && item.0 == c.host + "/" + c.repository + "@" + item.1.1
  {
    if components != [] {
      var n := |components| - 1;
      CandidatesExact(components[..n], item);
      assert components == components[..n] + [components[n]];
      ComponentCandidatesExact(components[n], item);
      hide ComponentCandidates;
    }
  }

  lemma ComponentCandidatesExact(c: Component, item: Candidate)
    ensures item in ComponentCandidates(c)
      <==> item.1.0 == c && !c.disabled && c.usable && c.branches.Some? && item.1.1 in c.branches.value
           && item.0 == c.host + "/" + c.repository + "@" + item.1.1
  {
    if c.branches.Some? {
      BranchCandidatesExact(c, c.branches.value, item);
    }
  }

  /** The list without the later copies of a component. */
  function Deduplicated(components: seq<Component>): seq<Component> {
    if components == [] then []
    else
      var n := |components| - 1;
      if components[n] in components[..n] then Deduplicated(components[..n])
      else Deduplicated(components[..n]) + [components[n]]
  }

  lemma {:induction false} MemberCandidatesSeen(components: seq<Component>, c: Component, key: string)
    requires c in components && key in Keys(ComponentCandidates(c))
    ensures key in Keys(Candidates(components))
  {
    var n := |components| - 1;
    KeysAppend(Candidates(components[..n]), ComponentCandidates(components[n]));
    if c != components[n] {
      MemberCandidatesSeen(components[..n], c, key);
    }
  }

  /** The hashes for which the active runs are asked for, in order. */
  function ListedHashes(requests: seq<Request>): seq<string> {
    if requests == [] then []
    else
      var last := requests[|requests| - 1];
      ListedHashes(requests[..|requests| - 1]) + if last.Listed? then [last.repoHash] else []
  }

  function HashesOf(decided: seq<Candidate>, hash: string -> string): (r: seq<string>)
    ensures |r| == |decided| && forall k | 0 <= k < |r| :: r[k] == RepoHash(decided[k].1.0, decided[k].1.1, hash)
  {
    seq(|decided|, k requires 0 <= k < |decided| => RepoHash(decided[k].1.0, decided[k].1.1, hash))
  }

  lemma ListedInDecision(requests: seq<Request>, item: Candidate, decision: Decision, hash: string -> string)
    ensures ListedHashes(requests + RequestsOf(item, decision, hash))
      == ListedHashes(requests) + [RepoHash(item.1.0, item.1.1, hash)]
  {
    var more := RequestsOf(item, decision, hash);
    var one := requests + [more[0]];
    assert one[..|one| - 1] == requests;
    if |more| == 2 {
      var two := requests + more;
      assert two[..|two| - 1] == one;
    } else {
      assert more == [more[0]];
    }
  }

  /** Whatever the answers, a pass asks for the active runs of every key it decides, once and in order. */
  lemma {:induction false} EveryKeyIsListed(decided: seq<Candidate>, decisions: seq<Decision>, hash: string -> string)
    requires |decided| == |decisions|
    ensures ListedHashes(Trace(decided, decisions, hash)) == HashesOf(decided, hash)
  {
    if decided != [] {
      var n := |decided| - 1;
      EveryKeyIsListed(decided[..n], decisions[..n], hash);
      ListedInDecision(Trace(decided[..n], decisions[..n], hash), decided[n], decisions[n], hash);
      hide ListedHashes, RepoHash;
      assert HashesOf(decided, hash) == HashesOf(decided[..n], hash) + [RepoHash(decided[n].1.0, decided[n].1.1, hash)];
    }
  }

  /**
   A component listed several times is decided as if it were listed once: two passes, one over the list and
   one over the list without its duplicates, ask for the active runs of the same keys in the same order,
   whatever answers each of them gets.
   */
  lemma DuplicatesChangeNothing(components: seq<Component>, decisions: seq<Decision>, decisions': seq<Decision>,
      hash: string -> string)
    requires |decisions| == |FirstByKey(Candidates(components))|
    requires |decisions'| == |FirstByKey(Candidates(Deduplicated(components)))|
    ensures FirstByKey(Candidates(Deduplicated(components))) == FirstByKey(Candidates(components))
    ensures ListedHashes(Trace(FirstByKey(Candidates(Deduplicated(components))), decisions', hash))
      == ListedHashes(Trace(FirstByKey(Candidates(components)), decisions, hash))
  {
    DuplicatesDecideNothing(components);
    EveryKeyIsListed(FirstByKey(Candidates(components)), decisions, hash);
    EveryKeyIsListed(FirstByKey(Candidates(components)), decisions', hash);
  }

  lemma {:induction false} DuplicatesDecideNothing(components: seq<Component>)
    ensures FirstByKey(Candidates(Deduplicated(components))) == FirstByKey(Candidates(components))
  {
    if components != [] {
      var n := |components| - 1;
      var c := components[n];
      DuplicatesDecideNothing(components[..n]);
      if c in components[..n] {
        forall key | key in Keys(ComponentCandidates(c)) ensures key in Keys(Candidates(components[..n])) {
          MemberCandidatesSeen(components[..n], c, key);
        }
        SeenKeysAddNothing(Candidates(components[..n]), ComponentCandidates(c));
      } else {
        var d := Deduplicated(components[..n]);
        assert (d + [c])[..|d|] == d;
        FirstByKeyExtends(Candidates(d), Candidates(components[..n]), ComponentCandidates(c));
      }
    }
  }

  // ----- Active runs -----

  /** pipelineRunCompleted. */
  method PipelineRunCompleted(conditions: seq<Condition>) returns (completed: bool)
    ensures completed <==> exists i ::
      && 0 <= i < |conditions| && conditions[i].kind == "Succeeded" && conditions[i].status != Unknown
      && forall j | 0 <= j < i :: conditions[j].kind != "Succeeded"
    ensures completed == Completed(conditions)
  {
    CompletedIffVerdict(conditions);
    for i := 0 to |conditions|
      invariant Completed(conditions) == Completed(conditions[i..])
    {
      if conditions[i].kind == "Succeeded" {
        return conditions[i].status != Unknown;
      }
    }
    return false;
  }

  /** hasActivePipelineRun, with the runs it looked at. */
  method HasActivePipelineRun(server: Server, repoHash: string) returns (active: Option<bool>, runs: Runs)
    requires server.Valid()
    modifies server`requests
    ensures server.Valid()
    ensures server.requests == old(server.requests) + [Listed(repoHash, if active.None? then None else Some(runs))]
    ensures active.Some? ==> runs == RunsWith(server.store, repoHash) && active.value == SomeActive(runs)
    ensures active.Some? ==>
      (active.value <==> exists r ::
         && r in server.store && r.kind == PipelineRun && server.store[r].content.repoHash == repoHash
         && !HasVerdict(server.store[r].content.conditions))
  {
    hide WellFormed, TokensKept, HasVerdict;
    var list := server.ListRuns(repoHash);
    if list.None? {
      return None, map[];
    }
    runs := list.value;
    var items := runs.Keys;
    while items != {}
      invariant items <= runs.Keys && server.requests == old(server.requests) + [Listed(repoHash, Some(runs))]
      invariant forall r | r in runs.Keys - items :: Completed(runs[r])
      decreases |items|
    {
      var r :| r in items;
      var completed := PipelineRunCompleted(runs[r]);
      if !completed {
        CompletedIffVerdict(runs[r]);
        assert r in server.store && server.store[r].content.conditions == runs[r];
        return Some(true), runs;
      }
      items := items - {r};
    }
    forall r | r in server.store && r.kind == PipelineRun && server.store[r].content.repoHash == repoHash
      ensures HasVerdict(server.store[r].content.conditions)
    {
      assert r in runs.Keys - items && runs[r] == server.store[r].content.conditions;
      CompletedIffVerdict(runs[r]);
    }
    return Some(false), runs;
  }

  lemma ActiveInStore(store: Store, repoHash: string)
    ensures SomeActive(RunsWith(store, repoHash)) <==> !NoneActive(store, repoHash)
  {
    if SomeActive(RunsWith(store, repoHash)) {
      var r :| r in RunsWith(store, repoHash) && !Completed(store[r].content.conditions);
      assert IsActiveRun(store, r, repoHash);
    } else {
      forall r ensures !IsActiveRun(store, r, repoHash) {
        assert IsActiveRun(store, r, repoHash) ==> r in RunsWith(store, repoHash);
      }
    }
  }

  ghost predicate NoneActive(store: Store, repoHash: string) {
    forall r :: !IsActiveRun(store, r, repoHash)
  }

  lemma OthersKeepOneActive(before: Store, after: Store, repoHash: string)
    requires NoNewRuns(before, after)
    ensures AtMostOneActive(before) ==> AtMostOneActive(after)
    ensures NoneActive(before, repoHash) ==> NoneActive(after, repoHash)
  {
    forall r, h | IsActiveRun(after, r, h) ensures IsActiveRun(before, r, h) {
    }
  }

  lemma CreationKeepsOneActive(before: Store, after: Store, run: Ref, repoHash: string)
    requires AtMostOneActive(before) && NoneActive(before, repoHash) && RunsGrewBy(before, after, run, repoHash)
    ensures AtMostOneActive(after)
  {
    forall r, h | IsActiveRun(after, r, h)
      ensures IsActiveRun(before, r, h) || (r == run && h == repoHash)
    {
    }
  }

  /**
   Creating a run keeps the invariant exactly when the store holds no active run with its hash at that
   moment. What an earlier list said does not matter, so a pass that reads a stale cache can break it.
   */
  lemma CreationSafeIffNoneActiveNow(store: Store, run: Ref, item: Object, repoHash: string)
    requires AtMostOneActive(store) && run !in store && run.kind == PipelineRun && item.content == RunContent(repoHash)
    ensures AtMostOneActive(store[run := item]) <==> NoneActive(store, repoHash)
  {
    var after := store[run := item];
    assert IsActiveRun(after, run, repoHash);
    if r :| IsActiveRun(store, r, repoHash) {
      assert IsActiveRun(after, r, repoHash) && r != run;
    } else {
      assert RunsGrewBy(store, after, run, repoHash);
      CreationKeepsOneActive(store, after, run, repoHash);
    }
  }

  // ----- The pass -----

  /**
   Every run in `after` was there before, with its label and at most more finished, or carries the name and
   the hash of a creation attempted in between.
   */
  ghost predicate Traced(before: Store, after: Store, requests: seq<Request>) {
    forall r | r in after && r.kind == PipelineRun ::
      || (r in before && after[r].content.repoHash == before[r].content.repoHash
          && (Completed(before[r].content.conditions) ==> Completed(after[r].content.conditions)))
      || exists k :: NamesRun(requests, k, r, after[r].content.repoHash)
  }

  predicate NamesRun(requests: seq<Request>, k: nat, r: Ref, repoHash: string) {
    && k < |requests| && requests[k].Attempted?
    && r == RunRef(requests[k].name) && repoHash == requests[k].repoHash
  }

  lemma TracedTransitive(a: Store, b: Store, c: Store, first: seq<Request>, second: seq<Request>)
    requires Traced(a, b, first) && Traced(b, c, second)
    ensures Traced(a, c, first + second)
  {
    forall r | r in c && r.kind == PipelineRun
      ensures (r in a && c[r].content.repoHash == a[r].content.repoHash
               && (Completed(a[r].content.conditions) ==> Completed(c[r].content.conditions)))
        || exists k :: NamesRun(first + second, k, r, c[r].content.repoHash)
    {
      if k :| NamesRun(second, k, r, c[r].content.repoHash) {
        assert NamesRun(first + second, |first| + k, r, c[r].content.repoHash);
      } else if k :| NamesRun(first, k, r, b[r].content.repoHash) {
        assert NamesRun(first + second, k, r, c[r].content.repoHash);
      }
    }
  }

  lemma OthersAreTraced(before: Store, after: Store)
    requires NoNewRuns(before, after)
    ensures Traced(before, after, [])
  {
  }

  lemma CreationIsTraced(before: Store, after: Store, request: Request)
    requires request.Attempted? && RunsGrewBy(before, after, RunRef(request.name), request.repoHash)
    ensures Traced(before, after, [request])
  {
    forall r | r in after && r.kind == PipelineRun && r == RunRef(request.name)
        && after[r].content.repoHash == request.repoHash
      ensures NamesRun([request], 0, r, after[r].content.repoHash)
    {
    }
  }

  /** Lines 594-613: the requests sent for one branch are those its decision stands for. */
  method ConsiderBranch(server: Server, c: Component, branch: string, hash: string -> string, inputs: Inputs,
      ghost key: string)
    returns (decision: Decision)
    requires server.Valid() && AtMostOneActive(server.store)
    modifies server
    ensures server.Valid() && AtMostOneActive(server.store)
    ensures Sound(decision)
    ensures server.requests == old(server.requests) + RequestsOf((key, (c, branch)), decision, hash)
    ensures Traced(old(server.store), server.store, RequestsOf((key, (c, branch)), decision, hash))
    ensures decision.Skipped? ==> !NoneActive(server.store, RepoHash(c, branch, hash))
    ensures decision.Tried? && decision.result.Success? ==>
      && RunRef(decision.name) in server.store
      && server.store[RunRef(decision.name)].uid == decision.result.value.uid
      && server.store[RunRef(decision.name)].content.repoHash == RepoHash(c, branch, hash)
  {
    var repoHash := RepoHash(c, branch, hash);
    ghost var before, requests := server.store, server.requests;
    server.Interfere({}, true);
    OthersKeepOneActive(before, server.store, repoHash);
    OthersAreTraced(before, server.store);
    hide Rely, Traced, AtMostOneActive, NoneActive, RunsGrewBy, SomeActive, Complete;
    var active, runs := HasActivePipelineRun(server, repoHash);
    ActiveInStore(server.store, repoHash);
    if active.None? || active.value {
      decision := if active.None? then NotListed else Skipped(runs);
      TracedByMore(before, server.store, RequestsOf((key, (c, branch)), decision, hash));
      return;
    }
    var name: string := *;
    ghost var middle := server.store;
    var r := WaitAndCreate(server, name, c, branch, hash, inputs);
    decision := Tried(runs, name, r);
    TracedTransitive(before, middle, server.store, [], [Attempted(c, branch, repoHash, name, UidOf(r))]);
    TracedWithList(before, server.store, Listed(repoHash, Some(runs)), Attempted(c, branch, repoHash, name, UidOf(r)));
    assert requests + [Listed(repoHash, Some(runs))] + [Attempted(c, branch, repoHash, name, UidOf(r))]
      == requests + RequestsOf((key, (c, branch)), decision, hash);
  }

  lemma TracedByMore(before: Store, after: Store, requests: seq<Request>)
    requires Traced(before, after, [])
    ensures Traced(before, after, requests)
  {
  }

  lemma TracedWithList(before: Store, after: Store, listed: Request, attempt: Request)
    requires Traced(before, after, [] + [attempt])
    ensures Traced(before, after, [listed, attempt])
  {
    forall r, repoHash, k: nat | NamesRun([] + [attempt], k, r, repoHash)
      ensures NamesRun([listed, attempt], 1, r, repoHash)
    {
    }
  }

  /** The creation, after whatever the rest of the cluster did since the list. */
  method WaitAndCreate(server: Server, name: string, c: Component, branch: string, hash: string -> string,
      inputs: Inputs)
    returns (r: Result<Object, CreateError>)
    requires server.Valid() && AtMostOneActive(server.store) && NoneActive(server.store, RepoHash(c, branch, hash))
    modifies server
    ensures server.Valid() && AtMostOneActive(server.store)
    ensures var attempt := Attempted(c, branch, RepoHash(c, branch, hash), name, UidOf(r));
      && server.requests == old(server.requests) + [attempt]
      && Traced(old(server.store), server.store, [attempt])
    ensures r.Success? ==>
      && RunRef(name) in server.store && server.store[RunRef(name)].uid == r.value.uid
      && server.store[RunRef(name)].content.repoHash == RepoHash(c, branch, hash)
  {
    var repoHash := RepoHash(c, branch, hash);
    ghost var before := server.store;
    server.Interfere({}, true);
    ghost var middle := server.store;
    OthersKeepOneActive(before, middle, repoHash);
    OthersAreTraced(before, middle);
    hide Rely, Traced, AtMostOneActive, NoneActive, RunsGrewBy;
    ghost var made;
    r, made := CreatePipelineRun(server, name, c, branch, hash, inputs);
    ghost var attempt := Attempted(c, branch, repoHash, name, UidOf(r));
    CreationKeepsOneActive(middle, server.store, RunRef(name), repoHash);
    CreationIsTraced(middle, server.store, attempt);
    TracedTransitive(before, middle, server.store, [], [attempt]);
    assert [] + [attempt] == [attempt];
  }

  /** What a pass has done so far: the requests since `requests` and the runs since `store` are those decided. */
  ghost predicate Passed(server: Server, store: Store, requests: seq<Request>, decided: seq<Candidate>,
      decisions: seq<Decision>, hash: string -> string)
    reads server
  {
    && server.Valid() && AtMostOneActive(server.store)
    && |decisions| == |decided| && (forall k | 0 <= k < |decisions| :: Sound(decisions[k]))
    && server.requests == requests + Trace(decided, decisions, hash)
    && Traced(store, server.store, Trace(decided, decisions, hash))
  }

  lemma TraceOneMore(decided: seq<Candidate>, decisions: seq<Decision>, item: Candidate, decision: Decision,
      hash: string -> string)
    requires |decided| == |decisions|
    ensures Trace(decided + [item], decisions + [decision], hash)
      == Trace(decided, decisions, hash) + RequestsOf(item, decision, hash)
  {
    assert (decided + [item])[..|decided|] == decided && (decisions + [decision])[..|decisions|] == decisions;
  }

  /** One branch that was not decided before. */
  method Decide(server: Server, item: Candidate, hash: string -> string, inputs: Inputs, decided: seq<Candidate>,
      decisions: seq<Decision>, ghost store: Store, ghost requests: seq<Request>)
    returns (decided': seq<Candidate>, decisions': seq<Decision>)
    requires Passed(server, store, requests, decided, decisions, hash)
    modifies server
    ensures Passed(server, store, requests, decided', decisions', hash)
    ensures decided' == decided + [item]
  {
    var (c, branch) := item.1;
    ghost var middle, soFar := server.store, Trace(decided, decisions, hash);
    hide Traced, AtMostOneActive, Trace, RequestsOf, Sound, RepoHash;
    var decision := ConsiderBranch(server, c, branch, hash, inputs, item.0);
    decided', decisions' := decided + [item], decisions + [decision];
    TraceOneMore(decided, decisions, item, decision, hash);
    TracedTransitive(store, middle, server.store, soFar, RequestsOf(item, decision, hash));
  }

  /** Lines 576-614, for one component. */
  method ProcessBranches(server: Server, c: Component, hash: string -> string, inputs: (Component, string) -> Inputs,
      decided: seq<Candidate>, decisions: seq<Decision>, ghost earlier: seq<Candidate>, ghost store: Store,
      ghost requests: seq<Request>)
    returns (decided': seq<Candidate>, decisions': seq<Decision>)
    requires c.branches.Some? && decided == FirstByKey(earlier)
    requires Passed(server, store, requests, decided, decisions, hash)
    modifies server
    ensures Passed(server, store, requests, decided', decisions', hash)
    ensures decided' == FirstByKey(earlier + BranchCandidates(c, c.branches.value))
  {
    hide Passed;
    decided', decisions' := decided, decisions;
    var branches := c.branches.value;
    var processed := Keys(decided);
    assert earlier + [] == earlier;
    for j := 0 to |branches|
      invariant Passed(server, store, requests, decided', decisions', hash)
      invariant decided' == FirstByKey(earlier + BranchCandidates(c, branches[..j]))
      invariant processed == Keys(decided')
    {
      var key := BranchKey(c.host, c.repository, branches[j]);
      AppendCandidate(earlier, c, branches, j);
      if key !in processed {
        processed := processed + [key];
        decided', decisions' := Decide(server, (key, (c, branches[j])), hash, inputs(c, branches[j]), decided',
            decisions', store, requests);
      }
    }
    assert branches[..|branches|] == branches;
  }

  lemma NoCandidates()
    ensures FirstByKey(Candidates([])) == []
  {
  }

  lemma OneMoreComponent(components: seq<Component>, i: nat)
    requires i < |components|
    ensures Candidates(components[..i + 1]) == Candidates(components[..i]) + ComponentCandidates(components[i])
  {
    assert components[..i + 1][..i] == components[..i];
  }

  lemma NothingDecided(server: Server, hash: string -> string)
    requires server.Valid() && AtMostOneActive(server.store)
    ensures Passed(server, server.store, server.requests, [], [], hash)
  {
  }

  /**
   Lines 521-617: the requests of a pass are, in order, those of its decisions; every key is decided once,
   by the first enabled component that yields it; every new run belongs to an attempt; and at most one run
   per hash is active, whatever else happens in the cluster.
   */
  method ProcessComponents(server: Server, gathered: seq<Component>, hash: string -> string,
      inputs: (Component, string) -> Inputs)
    returns (decided: seq<Candidate>, decisions: seq<Decision>)
    requires server.Valid() && AtMostOneActive(server.store)
    modifies server
    ensures Passed(server, old(server.store), old(server.requests), decided, decisions, hash)
    ensures decided == FirstByKey(Candidates(gathered))
  {
    NothingDecided(server, hash);
    NoCandidates();
    hide Passed, FirstByKey, Candidates, BranchCandidates, AtMostOneActive, WellFormed, TokensKept;
    decided, decisions := [], [];
    assert gathered[..0] == [];
    for i := 0 to |gathered|
      invariant Passed(server, old(server.store), old(server.requests), decided, decisions, hash)
      invariant decided == FirstByKey(Candidates(gathered[..i]))
    {
      var c := gathered[i];
      OneMoreComponent(gathered, i);
      if !c.disabled && c.usable && c.branches.Some? {
        decided, decisions := ProcessBranches(server, c, hash, inputs, decided, decisions, Candidates(gathered[..i]),
            old(server.store), old(server.requests));
      } else {
        assert Candidates(gathered[..i]) + [] == Candidates(gathered[..i]);
      }
    }
    assert gathered[..|gathered|] == gathered;
  }

  lemma AppendCandidate(earlier: seq<Candidate>, c: Component, branches: seq<string>, j: nat)
    requires j < |branches|
    ensures var item := (BranchKey(c.host, c.repository, branches[j]), (c, branches[j]));
            FirstByKey(earlier + BranchCandidates(c, branches[..j + 1]))
            == AddIfNew(FirstByKey(earlier + BranchCandidates(c, branches[..j])), item)
  {
    assert branches[..j + 1][..j] == branches[..j];
    var all := earlier + BranchCandidates(c, branches[..j + 1]);
    assert all[..|all| - 1] == earlier + BranchCandidates(c, branches[..j]);
  }

  /** What a check asks for: the components its specification selects, or all of them. */
  function Gathered(specs: seq<NamespaceSpec>, listing: Listing, all: Option<seq<Component>>)
    : (r: Option<seq<Component>>)
    ensures |specs| == 0 ==> r == all
    ensures |specs| > 0 ==> r == Filtered(specs, listing)
  {
    if specs != [] then Filtered(specs, listing) else all
  }

  /**
   Lines 502-617, after the check has been marked. A gathering that fails sends no request, and the check
   stays marked.
   */
  method Reconcile(
      server: Server, specs: seq<NamespaceSpec>, listing: Listing, all: Option<seq<Component>>, hash: string -> string,
      inputs: (Component, string) -> Inputs)
    returns (r: Option<(seq<Candidate>, seq<Decision>)>)
    requires server.Valid() && AtMostOneActive(server.store)
    modifies server
    ensures server.Valid() && AtMostOneActive(server.store)
    ensures Gathered(specs, listing, all).None? ==>
      r == None && server.store == old(server.store) && server.requests == old(server.requests)
    ensures Gathered(specs, listing, all).Some? ==>
      && r.Some? && r.value.0 == FirstByKey(Candidates(Gathered(specs, listing, all).value))
      && Passed(server, old(server.store), old(server.requests), r.value.0, r.value.1, hash)
  {
    var gathered := all;
    if specs != [] {
      gathered := GetFilteredComponents(specs, listing);
    }
    if gathered.None? {
      return None;
    }
    var decided, decisions := ProcessComponents(server, gathered.value, hash, inputs);
    return Some((decided, decisions));
  }

  /**
   Who decides: the keys decided are exactly those of the gathered components, each once, by the first
   enabled component that yields it, in order.
   */
  lemma DecidedOnceByTheFirst(gathered: seq<Component>, key: string)
    ensures var all, decided := Candidates(gathered), FirstByKey(Candidates(gathered));
      && DistinctKeys(decided) && (key in Keys(decided) <==> key in Keys(all))
      && |decided| == |FirstPositions(all)|
      && forall k | 0 <= k < |decided| ::
        decided[k] == all[FirstPositions(all)[k]] && FirstAt(all, FirstPositions(all)[k])
  {
    var all := Candidates(gathered);
    FirstByKeyDistinct(all);
    FirstByKeyKeys(all, key);
    KeepsFirstPositions(all);
    FirstPositionsExact(all);
    assert forall k | 0 <= k < |FirstPositions(all)| :: FirstPositions(all)[k] in FirstPositions(all);
  }

  // ----- What a pass attempts -----

  predicate KeyedByBranch(items: seq<Candidate>) {
    forall k | 0 <= k < |items| ::
      items[k].0 == BranchKey(items[k].1.0.host, items[k].1.0.repository, items[k].1.1)
  }

  lemma {:induction false} BranchCandidatesKeyed(c: Component, branches: seq<string>)
    ensures KeyedByBranch(BranchCandidates(c, branches))
  {
    if branches != [] {
      BranchCandidatesKeyed(c, branches[..|branches| - 1]);
    }
  }

  lemma {:induction false} CandidatesKeyed(components: seq<Component>)
    ensures KeyedByBranch(Candidates(components))
  {
    if components != [] {
      var n := |components| - 1;
      CandidatesKeyed(components[..n]);
      if components[n].branches.Some? {
        BranchCandidatesKeyed(components[n], components[n].branches.value);
      }
    }
  }

  lemma {:induction false} FirstByKeyKeyed(items: seq<Candidate>)
    requires KeyedByBranch(items)
    ensures KeyedByBranch(FirstByKey(items))
  {
    if items != [] {
      FirstByKeyKeyed(items[..|items| - 1]);
    }
  }

  function KeyOf(request: Request): string
    requires request.Attempted?
  {
    BranchKey(request.component.host, request.component.repository, request.branch)
  }

  /** The attempts among the requests, in order. */
  function Attempts(requests: seq<Request>): (r: seq<Request>)
    ensures forall k | 0 <= k < |r| :: r[k].Attempted?
  {
    if requests == [] then []
    else
      var last := requests[|requests| - 1];
      Attempts(requests[..|requests| - 1]) + if last.Attempted? then [last] else []
  }

  lemma {:induction false} AttemptsConcat(a: seq<Request>, b: seq<Request>)
    ensures Attempts(a + b) == Attempts(a) + Attempts(b)
    decreases |b|
  {
    if b == [] {
      assert a + b == a;
    } else {
      AttemptsConcat(a, b[..|b| - 1]);
      assert (a + b)[..|a + b| - 1] == a + b[..|b| - 1];
    }
  }

  function TriedItem(item: Candidate, decision: Decision, hash: string -> string): (r: seq<Request>)
    ensures |r| <= 1 && forall k | 0 <= k < |r| :: r[k].Attempted?
  {
    var (c, branch) := item.1;
    if decision.Tried? then [Attempted(c, branch, RepoHash(c, branch, hash), decision.name, UidOf(decision.result))]
    else []
  }

  /** The attempts that the decisions stand for. */
  function TriedOf(decided: seq<Candidate>, decisions: seq<Decision>, hash: string -> string): (r: seq<Request>)
    requires |decided| == |decisions|
    ensures forall k | 0 <= k < |r| :: r[k].Attempted?
  {
    if decided == [] then []
    else
      var n := |decided| - 1;
      TriedOf(decided[..n], decisions[..n], hash) + TriedItem(decided[n], decisions[n], hash)
  }

  lemma AttemptsOfDecision(item: Candidate, decision: Decision, hash: string -> string)
    ensures Attempts(RequestsOf(item, decision, hash)) == TriedItem(item, decision, hash)
  {
    var requests := RequestsOf(item, decision, hash);
    assert requests[..|requests| - 1] == if decision.Tried? then [requests[0]] else [];
    assert [requests[0]][..0] == [];
    assert Attempts([requests[0]]) == Attempts([]) + [];
  }

  /** A pass attempts exactly the items it decided to try, in order and once each. */
  lemma {:induction false} AttemptsAreTried(decided: seq<Candidate>, decisions: seq<Decision>, hash: string -> string)
    requires |decided| == |decisions|
    ensures Attempts(Trace(decided, decisions, hash)) == TriedOf(decided, decisions, hash)
  {
    if decided != [] {
      var n := |decided| - 1;
      AttemptsAreTried(decided[..n], decisions[..n], hash);
      AttemptsConcat(Trace(decided[..n], decisions[..n], hash), RequestsOf(decided[n], decisions[n], hash));
      AttemptsOfDecision(decided[n], decisions[n], hash);
    }
  }

  lemma {:induction false} TriedKeysDecided(decided: seq<Candidate>, decisions: seq<Decision>, hash: string -> string)
    requires |decided| == |decisions| && KeyedByBranch(decided)
    ensures forall a | a in TriedOf(decided, decisions, hash) :: KeyOf(a) in Keys(decided)
  {
    if decided != [] {
      var n := |decided| - 1;
      TriedKeysDecided(decided[..n], decisions[..n], hash);
      assert decided == decided[..n] + [decided[n]];
      KeysAppend(decided[..n], [decided[n]]);
    }
  }

  predicate DistinctAttempts(attempts: seq<Request>) {
    (forall k | 0 <= k < |attempts| :: attempts[k].Attempted?) &&
    forall i, j | 0 <= i < j < |attempts| :: KeyOf(attempts[i]) != KeyOf(attempts[j])
  }

  lemma DistinctWithOneMore(before: seq<Request>, last: seq<Request>, key: string)
    requires DistinctAttempts(before) && |last| <= 1
    requires forall a | a in before :: KeyOf(a) != key
    requires last != [] ==> last[0].Attempted? && KeyOf(last[0]) == key
    ensures DistinctAttempts(before + last)
  {
    hide KeyOf;
    var all := before + last;
    forall i, j | 0 <= i < j < |all| ensures KeyOf(all[i]) != KeyOf(all[j]) {
      assert all[i] == before[i] && before[i] in before;
      if j >= |before| {
        assert all[j] == last[0];
      }
    }
  }

  lemma {:induction false} TriedKeysDistinct(decided: seq<Candidate>, decisions: seq<Decision>, hash: string -> string)
    requires |decided| == |decisions| && KeyedByBranch(decided) && DistinctKeys(decided)
    ensures DistinctAttempts(TriedOf(decided, decisions, hash))
  {
    if decided != [] {
      var n := |decided| - 1;
      TriedKeysDistinct(decided[..n], decisions[..n], hash);
      TriedKeysDecided(decided[..n], decisions[..n], hash);
      var before := TriedOf(decided[..n], decisions[..n], hash);
      forall a | a in before ensures KeyOf(a) != decided[n].0 {
        var k :| 0 <= k < n && Keys(decided[..n])[k] == KeyOf(a);
        assert decided[k].0 == Keys(decided[..n])[k];
      }
      DistinctWithOneMore(before, TriedItem(decided[n], decisions[n], hash), decided[n].0);
    }
  }

  /**
   One pass attempts at most one creation per host/repository@branch key, and only for keys of the gathered
   components.
   */
  lemma AttemptedOncePerKey(gathered: seq<Component>, decisions: seq<Decision>, hash: string -> string)
    requires |decisions| == |FirstByKey(Candidates(gathered))|
    ensures var attempts := Attempts(Trace(FirstByKey(Candidates(gathered)), decisions, hash));
      && DistinctAttempts(attempts)
      && (forall a | a in attempts :: KeyOf(a) in Keys(Candidates(gathered)))
  {
    var all, decided := Candidates(gathered), FirstByKey(Candidates(gathered));
    CandidatesKeyed(gathered);
    FirstByKeyKeyed(all);
    FirstByKeyDistinct(all);
    AttemptsAreTried(decided, decisions, hash);
    TriedKeysDistinct(decided, decisions, hash);
    TriedKeysDecided(decided, decisions, hash);
    forall a | a in TriedOf(decided, decisions, hash) ensures KeyOf(a) in Keys(all) {
      FirstByKeyKeys(all, KeyOf(a));
    }
  }

  lemma {:induction false} AttemptsComplete(requests: seq<Request>, k: nat)
    requires k < |requests| && requests[k].Attempted?
    ensures requests[k] in Attempts(requests)
  {
    var n := |requests| - 1;
    if k < n {
      AttemptsComplete(requests[..n], k);
    }
  }

  /** Every run that a pass adds carries the name of one of its attempts. */
  lemma NewRunsAreAttempted(before: Store, after: Store, requests: seq<Request>, r: Ref) returns (a: Request)
    requires Traced(before, after, requests) && r in after && r.kind == PipelineRun && r !in before
    ensures a in Attempts(requests) && r == RunRef(a.name) && after[r].content.repoHash == a.repoHash
  {
    var k: nat :| NamesRun(requests, k, r, after[r].content.repoHash);
    AttemptsComplete(requests, k);
    a := requests[k];
  }

  /** And per key there is one attempt, so a pass adds at most one run per key. */
  lemma AtMostOneRunPerKey(gathered: seq<Component>, decisions: seq<Decision>, hash: string -> string,
      a: Request, b: Request)
    requires |decisions| == |FirstByKey(Candidates(gathered))|
    requires a in Attempts(Trace(FirstByKey(Candidates(gathered)), decisions, hash))
    requires b in Attempts(Trace(FirstByKey(Candidates(gathered)), decisions, hash))
    requires a.Attempted? && b.Attempted? && KeyOf(a) == KeyOf(b)
    ensures a == b && RunRef(a.name) == RunRef(b.name)
  {
    AttemptedOncePerKey(gathered, decisions, hash);
    var attempts := Attempts(Trace(FirstByKey(Candidates(gathered)), decisions, hash));
    var i :| 0 <= i < |attempts| && attempts[i] == a;
    var j :| 0 <= j < |attempts| && attempts[j] == b;
    assert i == j;
  }

  /** Every attempt carries the hash of its own key. */
  predicate HashedByKey(requests: seq<Request>, hash: string -> string) {
    forall k | 0 <= k < |requests| && requests[k].Attempted? :: requests[k].repoHash == hash(KeyOf(requests[k]))
  }

  lemma {:induction false} TraceHashedByKey(decided: seq<Candidate>, decisions: seq<Decision>, hash: string -> string)
    requires |decided| == |decisions|
    ensures HashedByKey(Trace(decided, decisions, hash), hash)
  {
    if decided != [] {
      var n := |decided| - 1;
      TraceHashedByKey(decided[..n], decisions[..n], hash);
    }
  }

  /**
   Why a branch is skipped. If the runs that `store` held before the requests have finished, an active run
   with the hash of the branch belongs to an attempt of these requests, for the branch's own key or for
   another one with the same hash. So a collision of hashes can make a pass skip a branch, and with
   CreationSafeIffNoneActiveNow it can do nothing else.
   */
  lemma SkipHasCause(store: Store, after: Store, requests: seq<Request>, c: Component, branch: string,
      hash: string -> string)
    returns (a: Request)
    requires Traced(store, after, requests) && HashedByKey(requests, hash)
    requires forall r | r in store && r.kind == PipelineRun :: Completed(store[r].content.conditions)
    requires SomeActive(RunsWith(after, RepoHash(c, branch, hash)))
    ensures a in Attempts(requests) && IsActiveRun(after, RunRef(a.name), a.repoHash)
    ensures hash(KeyOf(a)) == hash(BranchKey(c.host, c.repository, branch))
  {
    var r :| r in RunsWith(after, RepoHash(c, branch, hash)) && !Completed(after[r].content.conditions);
    var k: nat :| NamesRun(requests, k, r, after[r].content.repoHash);
    AttemptsComplete(requests, k);
    a := requests[k];
  }

  /** Any number of passes, one after the other, with the cluster acting in between. */
  method RunPasses(server: Server, passes: seq<seq<Component>>, hash: string -> string,
      inputs: (Component, string) -> Inputs)
    requires server.Valid() && AtMostOneActive(server.store)
    modifies server
    ensures server.Valid() && AtMostOneActive(server.store)
  {
    for i := 0 to |passes|
      invariant server.Valid() && AtMostOneActive(server.store)
    {
      ghost var before := server.store;
      server.Interfere({}, true);
      OthersKeepOneActive(before, server.store, "");
      var decided, decisions := ProcessComponents(server, passes[i], hash, inputs);
    }
  }
}
