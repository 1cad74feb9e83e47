# Verification models for MintMaker

Dafny models of the parts of MintMaker with the most state, branching and arithmetic, and proofs about
them. `dafny verify dfyconfig.toml` checks everything.

| area | files |
|---|---|
| the GitHub installations cache as a concurrent step system | `stale_cache.dfy` |
| token reuse and the configuration it depends on | `token_validity.dfy` |
| the reconcilers over an object store with resource versions | `api_server.dfy`, `create_transaction.dfy`, `event_reconciler.dfy`, `check_processing.dfy`, `filtered_components.dfy`, `reconcile_pass.dfy` |
| the PipelineRun builder | `pipeline_run_builder.dfy` |
| the choice of a secret for a repository | `slices.dfy`, `credential_selection.dfy` |
| the shared Renovate base configuration | `renovate_config.dfy` |
| repository hosts, paths and keys; label values | `repo_identity.dfy`, `label_value.dfy` |
| the OSV lists of affected packages | `osv_affected.dfy`, `first_wins.dfy` |
| the log sanitizer | `log_sanitizer.dfy` |
| shared | `text.dfy`, `wrappers.dfy` |

Code that updates state is modelled by classes and methods with loops, proved against functions;
the properties are lemmas about those functions. Code whose point is interleaving (the cache, the
processed annotation, token events) is a step system with lemmas over whole executions.

## Assumptions

- The cache: the clock does not go back; steps are sequentially consistent (the source uses `sync.Map`,
  `atomic.Value` and a mutex); `refreshFunc` returns, with any value or an error.
- The API server: every request can fail, and a create or update can take effect and still be reported as
  failed. Update is a compare-and-swap on the resource version. Between two requests of a call the rest
  of the cluster does anything that `ApiServer.Rely` allows: nobody else deletes or recreates objects under
  the random names a call has just drawn, nobody removes or overwrites a key of their data or their owners,
  versions and uids are never reused, tokens written by the event reconciler are not removed, only the
  one controller creates PipelineRuns, and a finished run stays finished. The passes of that controller are
  serialised and its List requests read the current store.
- A check: nothing clears the processed annotation within the life of one object.
- Hashes are arbitrary functions: nothing is assumed about collisions. They can only make a pass skip a branch
  (`ReconcilePass.SkipHasCause`, `CreateTransaction.SameHashIff`); at most one active run per hash holds with them too.
- URLs: `net/url` reads the plain URLs of section 3 of RFC 3986 as that section says.

## Where the code differs from its comments, or from what one may expect

- The comment on `StaleAllowedCache.Get` says that stale data is served while a refresh runs. In the code
  the only call on the slow path that gets the expired value without waiting is the one that starts the
  refresh (`StaleAllowedCache.StaleWithoutWaitingOnlyToInitiator`); the others wait, and get the expired
  value only if the refresh fails and no later one has published by then (`StaleAllowedCache.WaiterGetsStaleIff`).
- The comment on wildcards (`org/repo/*` matches `org/repo/foo`) reads like coverage; the score is a common
  prefix length. A wildcard that does not cover the repository can win (`CredentialSelection.NonCoveringCanWin`);
  `CredentialSelection.ChoiceCoversIff` and `CredentialSelection.ChoiceListsCoveringIff` say for which
  annotations it cannot. A deeper covering wildcard can
  tie with a shallower one: `org/repo*` and `org/repo/*` both score 2 for `org/repo/x`
  (`CredentialSelection.DeeperCanTie`; `CredentialSelection.DeeperScoresHigherIff` gives exactly when).
- The rendered Renovate configuration of a component can carry host rules of another component
  (`RenovateConfig.RulesStay`, with the exact condition in `RenovateConfig.IndependentOfHistoryIff`).
- A redacted log can still show a secret that overlaps the redaction mark itself; `LogSanitizer.GoneIffNoClash`
  gives the exact condition.
- A check can be marked as processed without anybody working on it: an update that marked it is followed up
  if and only if its reply arrived (`CheckProcessing.WorkedOnIffReplyArrived`; `CheckProcessing.MayNeverBeProcessed`
  is a run that shows it). The process can also die in between; `CheckProcessing.NobodyAttendsIff` says that
  these are the only two ways. A gathering that fails after the update is not tried again, although its error is
  returned for a retry (`CheckProcessing.FailedGatheringIsFinal`).
- Rollback deletes by name and ignores errors, and the RBAC markers grant no delete on PipelineRuns, so a run
  created before a failed ownership update can stay; `CreateTransaction.CreatePipelineRun` states exactly
  what is left. A token put into a dependent between its creation and its ownership update makes that update
  fail (`CreateTransaction.FilledIsUnseen`, `CreateTransaction.Own`) and so rolls the whole call back.

## Model

| member | source | states |
|---|---|---|
| StaleAllowedCache.StepKeepsInv | internal/component/github/cache.go:50-123 | every step of every thread keeps the inductive invariant and only extends the history |
| StaleAllowedCache.InvThroughout | internal/component/github/cache.go:37-123 | the invariant holds in every state of every execution, for any number of callers and keys |
| StaleAllowedCache.HistoryGrows | internal/component/github/cache.go:50-123 | over any stretch of an execution settled refreshes, finished calls and published values stay as they are and generations only rise |
| StaleAllowedCache.SingleFlight | internal/component/github/cache.go:62-123 | at most one refresh is in flight, the flag is up exactly between its start and its cleanup, every channel is closed once and only by its own cleanup |
| StaleAllowedCache.NoLostWakeup | internal/component/github/cache.go:66-94 | a waiter's channel is closed or belongs to the live refresh, whose owner, or the mutex holder it waits for, can move |
| StaleAllowedCache.NoDeadlock | internal/component/github/cache.go:62-94 | while anything is unfinished some thread can move |
| StaleAllowedCache.ThreadStepLowersRank | internal/component/github/cache.go:50-123 | every step of every thread lowers the total rank, whatever refreshFunc answers |
| StaleAllowedCache.CallsReturn | internal/component/github/cache.go:50-123 | without new calls an execution takes at most the total rank in thread steps, so pending calls return |
| StaleAllowedCache.WaiterNeverPushedBack | internal/component/github/cache.go:66-94 | new calls and other threads never move a waiter away from its wake-up, the refresher's steps bring it nearer, at zero the channel is closed |
| StaleAllowedCache.ResultsAreGenuine | internal/component/github/cache.go:50-123 | every ok result was fetched by a successful refresh of that key |
| StaleAllowedCache.CallBeganWith | internal/component/github/cache.go:50-59 | a call keeps its key and remembers at least the generation that was cached when it began |
| StaleAllowedCache.MonotoneReads | internal/component/github/cache.go:50-123 | after a value was returned for a key, every later call of that key returns that generation or a newer one |
| StaleAllowedCache.WaiterGetsTheRefresh | internal/component/github/cache.go:66-71 | a waiter on a successful refresh of its key gets that generation or later, and nothing only if the refresh failed with nothing cached |
| StaleAllowedCache.WaiterGetsStaleIff | internal/component/github/cache.go:66-71 | a waiter on a refresh of its own key comes back with what that refresh had found cached if and only if it failed and no later one has published by then |
| StaleAllowedCache.StaleWithoutWaitingOnlyToInitiator | internal/component/github/cache.go:50-123 | the only non-waiting slow-path caller given a value that expired before a refresh is that refresh's initiator: a re-check returns the newest value under the expiry in force, not yet passed; a waiter gets the old value only from a refresh that failed |
| StaleAllowedCache.ExpiryBoundedBySuccesses | internal/component/github/cache.go:102-121 | the expiry in force is at least one period per success after the first one's stamp |
| StaleAllowedCache.RefreshRate | internal/component/github/cache.go:74-121 | in one-key use k consecutive successful refreshes span more than k-1 periods |
| StaleAllowedCache.NoEarlyRefresh | internal/component/github/cache.go:74-87 | for any keys, a refresh that finds a cached value begins after the last stored expiry |
| StaleAllowedCache.FailedRefreshChangesNothing | internal/component/github/cache.go:102-118 | a failed refresh leaves data and expiry as they were, until the next one begins |
| TokenValidity.Parse | internal/config/config.go:158-197 | every configuration it returns has 0 < minimum validity < ttl; which fields come from the document and when the defaults replace everything |
| TokenValidity.TokenCache.Set | internal/component/github/cache.go:135-140 | replaces exactly the entry of the key |
| TokenValidity.TokenCache.Get | internal/component/github/cache.go:142-157 | the entry exactly when it has at least the minimum validity left |
| TokenValidity.TokenCache.GetToken | internal/component/github/github.go:186-222 | new cache and result of one call, including a failed fetch |
| TokenValidity.EntryWasStored | internal/component/github/github.go:216-219 | every cached entry is the last one stored for its key, with expiry ttl after its clock reading |
| TokenValidity.ReturnedTokensAreValid | internal/component/github/github.go:192-221 | in any interleaving of calls each returned token has the minimum validity left when chosen, in real life less only the time its answer took |
| TokenValidity.ReusableExactly | internal/component/github/cache.go:150-156 | a stored token is reused exactly up to ttl minus minimum validity after it was stored |
| TokenValidity.CallIsItsEvents | internal/component/github/github.go:199-221 | a call alone changes the cache as its lookup and store do in the log of interleaved calls, keeps that log a run, and returns the token of its last event |
| TokenValidity.EveryMissMayStore | internal/component/github/github.go:198-219 | every call that missed may store what it fetched, whatever was stored in between |
| TokenValidity.SeveralFetchesPossible | internal/component/github/github.go:198-219 | on top of any run two calls that missed one key may both store: this cache has no single flight |
| ApiServer.RelyTransitive | internal/controller/event_controller.go:188-236 | what the others may do in one step they may do in any number of steps |
| ApiServer.CompletedIffVerdict | internal/controller/dependencyupdatecheck_controller.go:189-199 | by position: a run is finished exactly when its first Succeeded condition is True or False |
| ApiServer.MarkFailedKeepsOthers | internal/controller/event_controller.go:110 | marking a run failed leaves one Succeeded condition, which is False, and every other condition as often as it was there |
| ApiServer.PutIsWithinRely | internal/controller/dependencyupdatecheck_controller.go:250-441 | every create or update that takes effect is something the event reconciler allows for; Server.Create and Server.Update ensure it of each of their outcomes |
| ApiServer.DeleteIsWithinRely | internal/controller/dependencyupdatecheck_controller.go:207-213 | and so is every delete |
| ApiServer.CancelIsWithinRely | internal/controller/event_controller.go:106-117 | cancelling any run at any moment is something a running pass allows for: it keeps label and completion, and finishes the run where the server takes the status along |
| ApiServer.MarkIsWithinRely | internal/controller/event_controller.go:45-61 | and so is marking an event |
| ApiServer.Server.Create | internal/controller/dependencyupdatecheck_controller.go:250-252 | a create adds one new object or nothing, also when its reply is lost, stays within what the others allow for, and is logged with its answer |
| ApiServer.Server.Update | internal/controller/dependencyupdatecheck_controller.go:421-423 | an update takes effect only on the version the caller holds, changes only that object, stays within what the others allow for, and is logged with its answer |
| ApiServer.Server.Delete | internal/controller/dependencyupdatecheck_controller.go:209-211 | a delete removes the named object or nothing and is logged |
| ApiServer.Server.Patch | internal/controller/event_controller.go:106-117 | a patch applies its change to whatever version is stored, or nothing, and is logged |
| ApiServer.Server.Get | internal/controller/event_controller.go:178 | a read returns the stored object, or says that there is none, or fails, and is logged |
| ApiServer.Server.ListRuns | internal/controller/dependencyupdatecheck_controller.go:165-175 | a list returns exactly the runs with the hash, or fails, and is logged |
| CreateTransaction.CreateOne | internal/controller/dependencyupdatecheck_controller.go:250-253 | one request of the transaction with the rest of the cluster acting before it; it fails exactly when the request is refused, and the books of created, recorded and unreported objects stay exact |
| CreateTransaction.Own | internal/controller/dependencyupdatecheck_controller.go:418-423 | ownership is added to the version seen; the call fails exactly when the owner cannot be set or the update is refused, so whenever the stored version is another one |
| CreateTransaction.FilledIsUnseen | internal/controller/event_controller.go:226-231 | a token put into a dependent keeps the call's books right and gives it a version the call has not seen, so that Own fails |
| CreateTransaction.CreateSecretAndConfig | internal/controller/dependencyupdatecheck_controller.go:215-274 | the Renovate secret and the config map; fails exactly when an input is missing or a request refused; what it creates is right key by key: the token exactly for a platform other than GitHub, the docker config exactly when there is one, the rendered config |
| CreateTransaction.CreateRpmSecret | internal/controller/dependencyupdatecheck_controller.go:276-298 | the optional RPM secret with its two keys |
| CreateTransaction.CreateRun | internal/controller/dependencyupdatecheck_controller.go:300-444 | the run and the three ownership updates; succeeds exactly when the owner can be set and no request is refused, and then the rollback list is empty and everything is complete |
| CreateTransaction.Rollback | internal/controller/dependencyupdatecheck_controller.go:206-213 | tries to delete exactly the recorded objects, each once |
| CreateTransaction.CreateOrRollBack | internal/controller/dependencyupdatecheck_controller.go:202-445 | for every failure point and interleaving: it succeeds if and only if the inputs are there and none of its own creates and updates was refused; on error exactly the unreported creations and the failed deletions remain; on success every dependent is present and owned by the run; only own objects are touched; at most one run is added; no token is lost; every object it creates is right key by key, and on success the store still holds those values |
| CreateTransaction.CreatePipelineRun | internal/controller/dependencyupdatecheck_controller.go:202-445 | the same under the hash of the component and branch given, recorded as one attempt with its outcome |
| CreateTransaction.ContentsAreRight | internal/controller/dependencyupdatecheck_controller.go:215-296 | what is created under each name, key by key, from the inputs |
| CreateTransaction.CompleteHolds | internal/controller/dependencyupdatecheck_controller.go:231-296 | after a success the store holds the token, the docker config, the rendered config and the activation key that were put there |
| CreateTransaction.SameHashIff | internal/utils/sanitize.go:26-30 | two branches get one label exactly when repository and branch are the same or the hash takes two keys to one value |
| CreateTransaction.CompleteWhenOwned | internal/controller/dependencyupdatecheck_controller.go:416-444 | once every ownership update succeeded the stored objects, whatever was added meanwhile, are complete |
| CreateTransaction.PutIsProgress | internal/controller/dependencyupdatecheck_controller.go:250-414 | writing an own object keeps the claim that only own objects are touched and at most one run appears |
| CreateTransaction.DeleteIsRollback | internal/controller/dependencyupdatecheck_controller.go:207-213 | one delete, successful or not, keeps the rollback exact |
| CreateTransaction.WaitKeepsAccounts | internal/controller/event_controller.go:226-231 | what the rest of the cluster may do leaves the call's view of its objects right |
| EventReconciler.FillIsWithinRely | internal/controller/event_controller.go:226-231 | putting a token into any secret at any moment is something a running creation allows for |
| EventReconciler.FindSecret | internal/controller/event_controller.go:163-170 | the secret name is the one of the first secret volume with that name |
| EventReconciler.SecretFoundIff | internal/controller/event_controller.go:163-170 | by position: a secret is found exactly when the first secret volume of that name is made from it |
| EventReconciler.RouteIs | internal/controller/event_controller.go:121-174 | what the event and the pod must be for a secret to be looked at, which one, and the reason otherwise |
| EventReconciler.PutToken | internal/controller/event_controller.go:226-235 | one update of the copy read that adds the token; when it succeeds the secret holds what was read and the token, and no other object is touched |
| EventReconciler.FillToken | internal/controller/event_controller.go:176-236 | reads the secret once and sends one update exactly when it held no token and there is one to put in; the exit is the one that answer, component and token call for |
| EventReconciler.TokensAreNotReplaced | internal/controller/event_controller.go:188-231 | every update it sends adds exactly the token to the copy read, which held none, and changes nothing else |
| EventReconciler.EndsFilledGoneOrCancelled | internal/controller/event_controller.go:178-236 | which answers and inputs end with the token put in or found there, and which make the run be cancelled |
| EventReconciler.ExitIs | internal/controller/event_controller.go:176-238 | every exit of the part that looks at the secret, by the answers and inputs that lead to it |
| EventReconciler.DeferredIs | internal/controller/event_controller.go:79-119 | the patches one by one: the event is marked exactly when it was read, and the run cancelled only after one of three exits |
| EventReconciler.Finish | internal/controller/event_controller.go:79-119 | sends the marking patch when the event was read and the cancelling patch exactly when providing the token failed and the run could be read, in that order and nothing else |
| EventReconciler.Reconcile | internal/controller/event_controller.go:72-239 | the whole invocation: inputs and answers fix its exit, its requests for the secret, and the patches it sends in the end; a cancelled run says so |
| CheckProcessing.StepKeepsInv | internal/controller/dependencyupdatecheck_controller.go:465-500 | every read, decision, update, edit, delete and recreation keeps the invariant |
| CheckProcessing.InvThroughout | internal/controller/dependencyupdatecheck_controller.go:465-500 | it holds in every state of every execution, with reads as stale as may be |
| CheckProcessing.AtMostOnceProcessed | internal/controller/dependencyupdatecheck_controller.go:471-517 | of all invocations for one object at most one gets past the annotation update |
| CheckProcessing.WorkImpliesMarked | internal/controller/dependencyupdatecheck_controller.go:494-500 | whoever works on an object has marked it, and it stays marked |
| CheckProcessing.WorkedOnIffReplyArrived | internal/controller/dependencyupdatecheck_controller.go:496-500 | an annotation update that took effect is followed by work, of the invocation that sent it, if and only if its reply arrived |
| CheckProcessing.WorkCameFromUpdate | internal/controller/dependencyupdatecheck_controller.go:496-502 | all work comes from such an update |
| CheckProcessing.NobodyAttendsIff | internal/controller/dependencyupdatecheck_controller.go:496-517 | a check marked by such an update is left with nobody attending to it if and only if the reply was lost or the process of its sender died |
| CheckProcessing.FailedGatheringIsFinal | internal/controller/dependencyupdatecheck_controller.go:479-517 | after a failed gathering, or the death of the process before it, no other invocation ever works on the check: the returned error leads to no second try |
| CheckProcessing.MayNeverBeProcessed | internal/controller/dependencyupdatecheck_controller.go:496-500 | the witness that it is not exactly once: a run that leaves the check marked and nobody working |
| FilteredComponents.MatchingComponents | internal/controller/common.go:46-51 | the components of the application, in order |
| FilteredComponents.SelectByName | internal/controller/common.go:58-65 | for every name asked for the first component that has it |
| FilteredComponents.SelectByApplications | internal/controller/common.go:45-66 | the selections of the applications, in order |
| FilteredComponents.GetFilteredComponents | internal/controller/common.go:26-70 | equals the declarative list, or fails |
| FilteredComponents.MultiplicityIsSelections | internal/controller/common.go:26-70 | a component is listed once per namespace, application or component entry that selects it |
| FilteredComponents.FailsIffUnlistable | internal/controller/common.go:36-38 | fails exactly when a namespace of the specification cannot be listed |
| FirstWins.FirstByKeyDistinct | internal/controller/dependencyupdatecheck_controller.go:585-592 | keeping the first per key leaves distinct keys |
| FirstWins.FirstByKeyKeys | internal/controller/dependencyupdatecheck_controller.go:585-592 | and loses no key |
| FirstWins.KeepsFirstPositions | tools/osv-generator/cve_parser.go:179-182 | exactly the items at the first position of their key are kept, in order |
| FirstWins.FirstPositionsExact | tools/osv-generator/cve_parser.go:179-182 | the first positions are all and only those, ascending |
| FirstWins.SeenKeysAddNothing | internal/controller/dependencyupdatecheck_controller.go:586-588 | items whose keys were all seen change nothing |
| ReconcilePass.PipelineRunCompleted | internal/controller/dependencyupdatecheck_controller.go:187-199 | by position: the first Succeeded condition decides, Unknown and absence mean unfinished |
| ReconcilePass.HasActivePipelineRun | internal/controller/dependencyupdatecheck_controller.go:162-185 | one list request; true exactly when the store holds a run with the hash whose first Succeeded condition is Unknown or missing |
| ReconcilePass.CandidatesExact | internal/controller/dependencyupdatecheck_controller.go:523-586 | a pass considers exactly the branches of gathered components that are not disabled, can be built and whose branches can be listed, each under host/repository@branch |
| ReconcilePass.Gathered | internal/controller/dependencyupdatecheck_controller.go:502-519 | no specification means all components, a specification what it selects |
| ReconcilePass.ActiveInStore | internal/controller/dependencyupdatecheck_controller.go:162-185 | that is, when the store holds an active run with the hash |
| ReconcilePass.OthersKeepOneActive | internal/controller/dependencyupdatecheck_controller.go:187-199 | Tekton progress, cancellation and deletion keep at most one active run per hash |
| ReconcilePass.CreationKeepsOneActive | internal/controller/dependencyupdatecheck_controller.go:594-606 | so does a creation, rolled back or not, when none was active |
| ReconcilePass.CreationSafeIffNoneActiveNow | internal/controller/dependencyupdatecheck_controller.go:594-606 | a creation keeps the invariant if and only if the store holds no active run with the hash at that moment |
| ReconcilePass.ConsiderBranch | internal/controller/dependencyupdatecheck_controller.go:594-613 | the requests sent for a branch are exactly those of its decision: a list, and one creation if and only if the list showed no active run |
| ReconcilePass.ProcessBranches | internal/controller/dependencyupdatecheck_controller.go:576-614 | the branches of one component: each key not decided before is decided once, with the requests of its decision |
| ReconcilePass.ProcessComponents | internal/controller/dependencyupdatecheck_controller.go:521-617 | the requests of a pass are in order those of its decisions; every key is decided once, by the first enabled component yielding it; every new run belongs to an attempt; at most one active run per hash |
| ReconcilePass.Reconcile | internal/controller/dependencyupdatecheck_controller.go:502-617 | gathering and pass together; a failed gathering sends no request and changes nothing |
| ReconcilePass.RunPasses | internal/controller/dependencyupdatecheck_controller.go:465-618 | any number of passes with the cluster acting in between keep the invariant |
| ReconcilePass.EveryKeyIsListed | internal/controller/dependencyupdatecheck_controller.go:585-596 | whatever the answers, a pass asks for the active runs of every key it decides, once and in order |
| ReconcilePass.DuplicatesChangeNothing | internal/controller/dependencyupdatecheck_controller.go:553-596 | passes over a list and over the list without its duplicates decide the same and ask for the active runs of the same keys in the same order, whatever answers each gets |
| ReconcilePass.DecidedOnceByTheFirst | internal/controller/dependencyupdatecheck_controller.go:585-592 | the decided keys are exactly those yielded, each once, by the first component yielding it |
| ReconcilePass.AttemptsAreTried | internal/controller/dependencyupdatecheck_controller.go:585-606 | the creations among a pass's requests are exactly the decisions to try, in order and once each |
| ReconcilePass.AttemptedOncePerKey | internal/controller/dependencyupdatecheck_controller.go:585-606 | one pass attempts at most one creation per host/repository@branch key, only for keys of the gathered components |
| ReconcilePass.NewRunsAreAttempted | internal/controller/dependencyupdatecheck_controller.go:605-606 | every run a pass adds carries the name and hash of one of its attempts |
| ReconcilePass.AtMostOneRunPerKey | internal/controller/dependencyupdatecheck_controller.go:585-606 | attempts of one pass for one key are one attempt, so a pass adds at most one run per key |
| ReconcilePass.SkipHasCause | internal/controller/dependencyupdatecheck_controller.go:162-185 | an active run that makes a pass skip a branch belongs to an attempt for the branch's key or for a key with the same hash |
| PipelineRunBuilder.AppendMounts | internal/tekton/pipeline_run_builder.go:381-386 | the mount goes to exactly the selected steps |
| PipelineRunBuilder.Builder.constructor | internal/tekton/pipeline_run_builder.go:103-296 | the one build task with its four steps and no volumes |
| PipelineRunBuilder.Builder.MountVolume | internal/tekton/pipeline_run_builder.go:412-448 | volume and mounts go to the first task of the name that has a spec, or nowhere |
| PipelineRunBuilder.Given | internal/tekton/pipeline_run_builder.go:341-350 | without options or a task name the build task is meant, everything else is as given |
| PipelineRunBuilder.SanitizeVolumeName | internal/tekton/pipeline_run_builder.go:329-333 | dots become hyphens and nothing else changes |
| PipelineRunBuilder.VolumeNamesSay | internal/tekton/pipeline_run_builder.go:352-416 | a volume is made from the config map or secret of the call and named after its kind, its sanitised name and, for a secret, the suffix |
| PipelineRunBuilder.Builder.WithConfigMap | internal/tekton/pipeline_run_builder.go:340-392 | the same for a config map under its sanitised name, with the defaults for missing options |
| PipelineRunBuilder.Builder.WithSecret | internal/tekton/pipeline_run_builder.go:399-451 | the same for a secret under a name with a random suffix, with the defaults for missing options |
| PipelineRunBuilder.Builder.WithKiteIntegration | internal/tekton/pipeline_run_builder.go:530-619 | appends the analyzer step to the build task |
| PipelineRunBuilder.BuildPipelineRun | internal/controller/dependencyupdatecheck_controller.go:301-404 | the calls made for a component, in order; they leave the one build task that BuiltRun describes |
| PipelineRunBuilder.CallKeepsWellFormed | internal/tekton/pipeline_run_builder.go:340-619 | one call on any tasks keeps mounts and volumes consistent |
| PipelineRunBuilder.MountsNameVolumes | internal/tekton/pipeline_run_builder.go:340-619 | after any sequence of calls every mount names a volume of its own task |
| PipelineRunBuilder.BuildTaskVolumes | internal/tekton/pipeline_run_builder.go:352-388 | the build task has one volume per call that targets it, in order |
| PipelineRunBuilder.NamesMeet | internal/tekton/pipeline_run_builder.go:329-333 | two volume names agree only for the same kind and the same suffix or sanitised name |
| PipelineRunBuilder.VolumeNamesDistinctIff | internal/tekton/pipeline_run_builder.go:355-416 | with fresh suffixes volume names are distinct exactly when the config map names are distinct after sanitising |
| PipelineRunBuilder.LookupFinds | internal/controller/event_controller.go:163-170 | the lookup finds a secret volume unless an earlier one has its name |
| PipelineRunBuilder.SecretVolumeLeadsBack | internal/controller/event_controller.go:163-170 | looking up the name of any secret volume returns the secret it was built from |
| PipelineRunBuilder.StepPaths | internal/tekton/pipeline_run_builder.go:381-386 | each step carries exactly the mounts of the calls that name it |
| PipelineRunBuilder.MountedByCall | internal/tekton/pipeline_run_builder.go:381-386 | every call that names a step of the build task mounts its own volume there at its path |
| PipelineRunBuilder.BuiltRun | internal/controller/dependencyupdatecheck_controller.go:315-404 | the built run in full: its steps in order, the paths each of them mounts, and the config map or secret behind every path, for every combination of the optional volumes |
| PipelineRunBuilder.MountPathsDistinct | internal/controller/dependencyupdatecheck_controller.go:315-404 | in the run built for a component the mount paths of each step are distinct |
| Slices.Filter | internal/slices/slice.go:17-25 | the elements that pass, in order |
| Slices.FilteredConcat | internal/slices/slice.go:17-25 | filtering distributes over concatenation |
| Slices.Intersection | internal/slices/slice.go:27-39 | the length of the longest common prefix |
| Slices.CommonPrefix | internal/slices/slice.go:27-39 | the two lists agree up to the count and, if both go on, differ there |
| Slices.CommonPrefixIs | internal/slices/slice.go:27-39 | only one count has that property |
| CredentialSelection.TrimEach | internal/component/base/base.go:224-228 | every annotated name loses at most one slash at each end, and no slash that could go is left |
| CredentialSelection.TrimNameIs | internal/component/base/base.go:227 | what is left of a name is the one text that gives it back with at most one slash at each end |
| CredentialSelection.PlainTrimmed | internal/component/base/base.go:227 | for a repository without outer slashes four spellings of its name count |
| CredentialSelection.ExactIff | internal/component/base/base.go:224-233 | a secret matches exactly if and only if its annotation lists the repository, with or without one slash at each end |
| CredentialSelection.RatingIs | internal/component/base/base.go:235-247 | the rating of a secret is the largest number of leading path parts that a wildcard it lists has in common with the repository |
| CredentialSelection.BestScoreIsHighest | internal/component/base/base.go:241-247 | the recorded count is the highest score of any name of the secret |
| CredentialSelection.OnlyWildcardsScore | internal/component/base/base.go:238-239 | leaving out names that are no wildcards changes no score |
| CredentialSelection.AddMatches | internal/component/base/base.go:238-247 | the map gets the secret's best score, and nothing when it is zero |
| CredentialSelection.FindBest | internal/component/base/base.go:259-266 | the map loop, for whatever order of iteration: an entry of the highest count, the one that order makes the winner |
| CredentialSelection.BestIsMaximal | internal/component/base/base.go:259-266 | in every order the winner has the highest count |
| CredentialSelection.AnyMaximumCanWin | internal/component/base/base.go:259-266 | each entry of highest count wins in some order |
| CredentialSelection.Rank | internal/component/gitlab/gitlab.go:133-188 | for every iteration order: first exact match, else some secret of highest positive rating, else the first host-only secret, else none |
| CredentialSelection.SelectedIsChosen | internal/component/base/base.go:199-267 | an allowed choice from the usable secrets is, on the list as it was read, the secret that the annotations call for |
| CredentialSelection.DeterminedIffNoTie | internal/component/base/base.go:250-267 | the choice is fixed by the list if and only if an exact match exists or the highest rating is held once |
| CredentialSelection.PatternScore | internal/component/base/base.go:242 | the score of a wildcard is the common prefix of the repository's parts with its directories and stem |
| CredentialSelection.CoveringScore | internal/component/base/base.go:235-247 | a covering wildcard scores its depth, one more when its stem is a whole part |
| CredentialSelection.DeeperScoresHigherIff | internal/component/base/base.go:235-247 | of two covering wildcards with any stems the one with more directories scores strictly higher, except when it has one more that only the stem of the other names as a whole part |
| CredentialSelection.DeeperScoresHigher | internal/component/base/base.go:235-247 | so of two covering wildcards that end in a whole star the deeper one scores strictly higher |
| CredentialSelection.DeeperCanTie | internal/component/base/base.go:235-247 | the exception at org/repo* and org/repo/* for org/repo/x: both score 2 |
| CredentialSelection.CoversIffFullScore | internal/component/base/base.go:235-247 | a wildcard covers the repository if and only if the repository has a part below its directories that begins with its stem and its score reaches their number |
| CredentialSelection.WildcardCoversIsCovers | internal/component/base/base.go:242 | a written wildcard covers a repository exactly when its directories and stem do |
| CredentialSelection.ChoiceCoversIff | internal/component/base/base.go:250-267 | without an exact match every possible choice of a rated secret is won by covering wildcards if and only if each wildcard that shares leading parts without covering is beaten by a covering one that shares more |
| CredentialSelection.ChoiceListsCoveringIff | internal/component/base/base.go:250-267 | without an exact match every possible choice of a rated secret lists a covering wildcard if and only if each rated secret that lists none is outrated by one that does |
| CredentialSelection.LoneStarScoresNothing | internal/component/base/base.go:242-243 | a lone star never matches |
| CredentialSelection.NonCoveringCanWin | internal/component/base/base.go:259-267 | the witness that this can fail: a wildcard that does not cover the repository is chosen over one that does |
| CredentialSelection.LookupSecret | internal/component/forgejo/forgejo.go:107-186 | on the list as it was read: the first basic-auth secret with data whose annotation lists the repository; without one, one whose wildcard shares most; without one, the first that has no annotation; and which of the three errors otherwise |
| CredentialSelection.GetRPMActivationKey | internal/component/base/base.go:109-269 | the same choice among opaque secrets, with the namespace's default secret instead of the errors; the key and the organisation are the two values of the secret chosen, no secret at all and an incomplete one are told apart |
| RenovateConfig.Process.GetRenovateBaseConfig | internal/component/base/base.go:131-162 | one shared map, loaded once; a failed load leaves nothing |
| RenovateConfig.Process.Merge | internal/component/base/base.go:154-156 | self-hosted keys override, in any iteration order |
| RenovateConfig.Process.AddHostRules | internal/component/gitlab/gitlab.go:227-233 | non-empty host rules go into the shared map, anything else leaves it |
| RenovateConfig.Process.Begin | internal/component/forgejo/forgejo.go:233-245 | fetching the base and adding host rules keeps the history invariant of the shared map |
| RenovateConfig.Process.GetGitHubConfig | internal/component/github/github.go:392-431 | the rendered configuration, and what a failed call leaves in the shared map |
| RenovateConfig.Process.GetTokenPlatformConfig | internal/component/gitlab/gitlab.go:221-255 | the same for GitLab and, with its endpoint, Forgejo |
| RenovateConfig.BaseIsKept | internal/component/base/base.go:131-137 | once loaded the base is the same for every later history |
| RenovateConfig.BaseIsFirst | internal/component/base/base.go:139-161 | the base is that of the first call that could read the documents, with the self-hosted keys on top |
| RenovateConfig.RenderedSetsOwn | internal/component/github/github.go:414-425 | when a call returns a configuration, and the platform, endpoint, user name, author and repositories it then holds, for each of the three platforms |
| RenovateConfig.OtherKeysAreFresh | internal/component/forgejo/forgejo.go:233-265 | every key but hostRules is as in a fresh process, whatever was called before |
| RenovateConfig.LastRulesAt | internal/component/gitlab/gitlab.go:228-233 | the host rules in force are those of the last call that brought any |
| RenovateConfig.RulesStay | internal/component/github/github.go:399-412 | they appear in every later configuration, also when the call that brought them failed |
| RenovateConfig.IndependentOfHistoryIff | internal/component/base/base.go:131-162 | a configuration is its call's own if and only if the call brings rules, none are left over, or those left over are the base's |
| RepoIdentity.SpellingsAgree | internal/utils/utils.go:47-87 | all web and ssh spellings of a repository, with or without trailing slash or .git, give its host and path |
| RepoIdentity.SuffixTrimmed | internal/utils/utils.go:71 | trimming one slash and then one .git leaves the repository for every spelling |
| RepoIdentity.WebUrlParsed | internal/utils/utils.go:61-65 | plain URLs with or without a port parse to their host and path |
| RepoIdentity.UserPartRejected | internal/utils/utils.go:49-57 | a URL with a scheme and a user part is rejected |
| RepoIdentity.NoColonRejected | internal/utils/utils.go:47-79 | a login without a colon gives neither host nor path |
| RepoIdentity.BranchKeyInjective | internal/utils/sanitize.go:26-30 | the key determines host, repository and branch when hosts have no slash and repositories no at sign |
| RepoIdentity.BranchKeyCollides | internal/utils/sanitize.go:26-30 | neither condition can be dropped |
| RepoIdentity.SameKeyIffSameRepository | internal/utils/utils.go:47-87 | two spelled URLs with branches give one key exactly when repository and branch are the same |
| LabelValue.NormalizedIsValid | internal/utils/sanitize.go:32-58 | the result is a valid label value with exactly the alphanumeric characters of the first 63 bytes, in order |
| LabelValue.UnchangedIffValid | internal/utils/sanitize.go:32-58 | exactly the valid values are left as they are |
| LabelValue.NormalizeIdempotent | internal/utils/sanitize.go:32-58 | normalising twice is normalising once |
| LabelValue.EmptyIffNothingToKeep | internal/utils/sanitize.go:42-51 | the result is empty exactly when the first 63 bytes hold nothing alphanumeric |
| LabelValue.RunsCollapsed | internal/utils/sanitize.go:53-55 | collapsing keeps the allowed characters at both ends and never lengthens |
| LabelValue.RunBecomesUnderscore | internal/utils/sanitize.go:53-55 | a maximal run of characters that are not allowed becomes one underscore, whatever surrounds it |
| LabelValue.NormalizedFrom | internal/utils/sanitize.go:32-58 | the result is the first 63 bytes with slashes as underscores, without what precedes the first and follows the last alphanumeric character, and with runs collapsed |
| OsvAffected.RegistriesDoNotClash | tools/osv-generator/cve_parser.go:216-224 | no part of one registry name overlaps the other so that a rewrite could create a new occurrence |
| OsvAffected.ToOldRegistryIdempotent | tools/osv-generator/cve_parser.go:222-223 | rewriting all occurrences twice is rewriting once |
| OsvAffected.RewrittenIff | tools/osv-generator/cve_parser.go:222-223 | every text falls into parts free of the new registry name with that name between them, and the rewrite is the same parts with the old name between them |
| OsvAffected.NameRewritten | tools/osv-generator/cve_parser.go:222 | an image under registry.redhat.io becomes the same image under registry.access.redhat.com |
| OsvAffected.Contains | tools/osv-generator/cve_parser.go:289-296 | whether the list has an entry of the name |
| OsvAffected.AppendProducts | tools/osv-generator/cve_parser.go:197-235 | the products of one architecture: new names are appended, known ones skipped |
| OsvAffected.AppendArchitectures | tools/osv-generator/cve_parser.go:195-236 | only branches of category architecture count |
| OsvAffected.GetAffectedList | tools/osv-generator/cve_parser.go:140-240 | the list is the first entry per name of the traversal |
| OsvAffected.ContainerListClosed | tools/osv-generator/cve_parser.go:190-240 | distinct names, and with every name the one in the old registry; so with every name that begins with registry.redhat.io the same name under registry.access.redhat.com |
| OsvAffected.ListKeepsFirstOccurrences | tools/osv-generator/cve_parser.go:140-240 | each name keeps the entry of its first occurrence and no name is dropped |
| OsvAffected.EntriesOfProduct | tools/osv-generator/cve_parser.go:147-224 | a product of the kind gives one entry with its ecosystem, name, purl and fix, a container then its twin in the old registry, any other product none |
| OsvAffected.EntriesInOrder | tools/osv-generator/cve_parser.go:145-183 | the entries of a tree are those of its branches in order |
| OsvAffected.ListIsOfProducts | tools/osv-generator/cve_parser.go:140-240 | every entry of the list is that of a product under an architecture or its twin, and every such product and twin has its name in the list |
| Text.NoNewOccurrence | tools/osv-generator/cve_parser.go:222 | replacement creates no occurrence of a string that cannot clash with the replacement |
| Text.ReplacedIsGone | tools/osv-generator/cve_parser.go:222 | nor leaves one of the pattern |
| Text.ReplaceAllIdempotent | tools/osv-generator/cve_parser.go:222 | replacing twice is replacing once |
| Text.ClashLeaks | internal/tekton/log_sanitizer.sh:46 | for a replacement that ends with its first character the condition is exact: otherwise some text keeps the pattern |
| Text.ReplaceAllByParts | internal/tekton/log_sanitizer.sh:46 | replacing in a file is replacing in its lines |
| Text.JoinSplit | internal/component/base/base.go:224 | joining the parts of a split gives the text back |
| Text.SplitJoin | internal/component/base/base.go:236 | splitting joined parts gives the parts back |
| LogSanitizer.DelimiterFound | internal/tekton/log_sanitizer.sh:44-46 | sed finds the end of the pattern where the command has it, for every secret |
| LogSanitizer.PatternIsLiteral | internal/tekton/log_sanitizer.sh:44-46 | the escaped secret parses, by sections 9.3.2 and 9.3.3 of POSIX.1-2017 XBD, as its literal characters |
| LogSanitizer.LiteralsMatchThemselves | internal/tekton/log_sanitizer.sh:44-46 | and matches exactly the secret |
| LogSanitizer.LineSubstitutionIsReplacement | internal/tekton/log_sanitizer.sh:46 | leftmost longest substitution of that pattern is literal replacement |
| LogSanitizer.RedactionIsLiteral | internal/tekton/log_sanitizer.sh:44-46 | sed accepts the command for every secret line and replaces exactly its literal occurrences in the file |
| LogSanitizer.FailedLog | internal/tekton/log_sanitizer.sh:4-8 | after the fail-safe the log is the fail message, a beginning of it when the write is cut short, or as it was when the file cannot be opened for writing |
| LogSanitizer.Workspace.FailSafe | internal/tekton/log_sanitizer.sh:4-8 | the shell steps, emptying the file and then writing to it, leave that log |
| LogSanitizer.Workspace.Redact | internal/tekton/log_sanitizer.sh:41-53 | fails exactly when sed fails on a non-empty line, otherwise the copy holds all redactions in order |
| LogSanitizer.SecretLinesAre | internal/tekton/log_sanitizer.sh:24-53 | the lines read by the loop are exactly the lines of the secrets reported |
| LogSanitizer.SecretLinesInOrder | internal/tekton/log_sanitizer.sh:24-53 | in the order of the report |
| LogSanitizer.NothingReportedIff | internal/tekton/log_sanitizer.sh:19-36 | nothing is reported exactly when the scanner printed nothing or no secret has a line with text |
| LogSanitizer.Workspace.Sanitize | internal/tekton/log_sanitizer.sh:9-62 | the log ends untouched, fully redacted or as the fail message (perhaps cut short), each exactly when, never partly redacted; when nothing fails no line of any reported secret is left in it that cannot overlap the mark |
| LogSanitizer.LineIsGone | internal/tekton/log_sanitizer.sh:42-53 | a reported line that cannot overlap the mark is absent after all redactions, whatever else is reported |
| LogSanitizer.GoneIffNoClash | internal/tekton/log_sanitizer.sh:42-53 | a reported line is absent from every redacted log if and only if it cannot overlap the mark |
| LogSanitizer.CleanLogKept | internal/tekton/log_sanitizer.sh:42-53 | a log without any reported line is kept |

## Left out

- The cache: a panic in `refreshFunc`; an absolute bound on staleness (value, expiry and clock are read separately, so the code gives none); freshness across keys, which share one expiry and one flag. `RefreshRate` is stated for one key, as the cache is used.
- TokenValidity.TokenCache.GetToken: the lookup of the installation and the clients are inputs; the unsynchronised creation of the entries map is not modelled; real tokens are taken to live for the configured ttl.
- The GitHub, GitLab and Forgejo clients, retries, pagination and downloads: their answers are inputs.
- The JSON, base64, SHA-256, `net/url` and regular expression libraries: inputs, an arbitrary hash function, a grammar of plain URLs, and captures given with the text.
- RenovateConfig.Process.GetRenovateBaseConfig: documents that are JSON but not objects (a literal `null` makes the code write to a nil map), and two first calls that load at the same time, of which the later one wins the variable.
- RenovateConfig.Process.GetGitHubConfig: the cached slug and user id are inputs of each call; `GetHostRules` is an input, its order of rules follows a map iteration.
- CredentialSelection.Rank: stands for three loops with the same text in base.go, gitlab.go and forgejo.go; the label selector of the List request is taken as applied.
- OsvAffected.GetAffectedList: requires that the expressions capture something in every purl of the kind, because the code indexes the captures unchecked and panics otherwise. The nested branches are one level of products below the architecture, as the code reads them.
- EventReconciler.Reconcile: the secret is read from the current store; the event, the pod and the run are inputs as they were read.
- ApiServer.Server.Delete: a delete whose effect is not reported is counted as failed or as done, not as both. Whether a patch of the main resource takes the status along is left open.
- CreateTransaction.CreatePipelineRun: names are drawn by the caller; labels other than the hash, the Kite secret lookup and the CA config map lookup are not part of it, their volumes are in the builder model.
- PipelineRunBuilder.BuildPipelineRun: images, scripts, resources, projected keys, read-only flags and labels.
- ReconcilePass.RunPasses: metrics, and the lookup of the Kite secret.
- CheckProcessing.AtMostOnceProcessed: a Get that fails for another reason than a missing object falls through with an empty object, whose update the server rejects for want of a name; the model makes that update fail.
- RepoIdentity.SpellingsAgree: hosts of letters, digits, dots and hyphens, and paths of unreserved characters; percent-encoding, queries and fragments are not spelled.
- LogSanitizer.RedactionIsLiteral: sed on bytes, in a locale where every byte is a character.
- `GetGitPlatform`, `getReferencesList`, `getAdvisoryListByReleases`, the fan-in of `GenerateOSV`, zip and registry handling, PipelineRunReconciler, metrics, logging and manager startup: straight-line, or only logging.
