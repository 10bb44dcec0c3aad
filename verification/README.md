# A verified model of the declarative reconciler

This project models the declarative reconciler of the module manager: the controller that drives one object through an
unbounded sequence of `Reconcile` rounds against two API servers, the control plane that holds the object and the target
cluster that holds what its manifest describes. A round is one long branching method which can stop and persist at about a
dozen points, and its correctness lives across rounds. The model states a round once as a function of the world and of
everything the environment answers, proves that the imperative reconciler takes exactly that step, tells from the answers alone
where each round ends and with which effects, and then proves what every run of such steps keeps: nothing applied is lost, finalizers are dropped only after cleanup, a ready state is earned, and the
loop reaches its goal.

Four smaller parts feed the reconciler and are modelled on their own: the identity of resources and their conversions, the
fan-out and fan-in of workers over buffered channels, the two manifest caches whose entries have to survive callers that
change what they get in place, and the text code that joins YAML documents and paths.

## Modules

| file | content |
|---|---|
| `Text`, `Identity` | splitting and joining, resource identifiers, `ResourcesDiff` |
| `Model`, `Protocol` | objects, clusters and answers; one round as a function |
| `Reconciler` | the reconciler as classes that change their state, refining `Protocol` |
| `Endings`, `Journals`, `Results` | a second, flat account of a round: where it ends, what it persists, leaves and logs, and whether it comes back |
| `Runs`, `Frames` | runs of rounds and outside moves; what each stage of a round leaves alone |
| `Books`, `Landing`, `LeakFreedom`, `Escapes` | what a run makes, tracks and forgets; what a released object leaves behind |
| `Tracking`, `Finalizers`, `TraceOrder`, `Readiness`, `Prerequisites` | safety of every run |
| `Phases`, `Iteration`, `Calm`, `Deletion`, `Convergence`, `Obstacles` | liveness in an environment without faults, with exact conditions and with runs that end where they fail |
| `Collectors`, `Channels` | the receivers of worker results, and all interleavings of workers and receiver |
| `Objects`, `Transforms`, `Converter` | manifest objects on the heap, in-place transforms, converters and namespaces |
| `Hashing`, `CacheKeys`, `DiskCache`, `ManifestCache`, `SharedCache` | keys and contents of the two caches, and all interleavings of those who share them |
| `YamlJoin`, `YamlMemory`, `YamlSlices`, `YamlRejoin`, `PathJoin` | text and path code |

## Assumptions

- Every round starts from a current read of its object. The status patch carries no resource version, so the last writer wins;
  the full update and the finalizer patches are modelled with theirs.
- Helm's `Difference` belongs to a library. It is modelled for both matching rules, by kind and by group and kind; results name
  the rule they need.
- Whether the client library calls an object without a mapping namespaced is not visible in the source. Both rules are modelled:
  never, and by the object's own namespace.
- Rendering is a function of the spec, parsing a function of the text. What API servers, renderers, discovery and the file
  system answer is a parameter of a round, and the safety results hold for every choice of answers.
- Between two rounds anybody else may change the world as far as `Runs.Allowed` says: finish deletions, remove objects, mark the
  object for deletion, add foreign finalizers. Only the leak results also rule out others that create the same objects.
- The leak and the order results assume that nobody changes `Spec.Resource` during a run; the other run results do not.

## What the code does not promise

Where a property fails, the model keeps the code's behaviour and proves the exact condition.

- `ResourcesDiff` sees every change of the set of identifiers exactly for lists without a repeated one
  (`Identity.DiffDetectsChangeIffDistinct`); `[a, a]` against `[a, b]` looks unchanged.
- A round tracks everything it applied if and only if all of that was tracked before, or it writes its target down: no apply
  failed, the status write got through, and the comparison saw a change or the custom resource hook failed
  (`Landing.RoundTracksIff`). So a failed apply makes a round forget (`Landing.PartialApplyForgets`), and so does, without any
  error, a tracked list that repeats an identifier (`Landing.RepeatedListForgets`); with good lists only errors do
  (`Landing.FaultlessRoundTracks`). What is ever left behind was forgotten in this way, mislaid by the matching rule or installed
  as a definition, and not looked after since (`LeakFreedom.LeakFreedom`). `Escapes.DeletionLeaksExactly` says what a deletion
  leaves behind.
- Replacing one target by another loses no object if and only if the matching rule takes nothing for part of the target that is
  not part of it (`Escapes.NothingIsLostIff`); matching by kind alone does not always (`Escapes.KindRuleForgets`).
- A deleting Helm round installs missing custom resource definitions again before it removes anything. A deletion therefore ends
  if and only if no such definition is itself tracked or the custom resource, `DeletePrerequisites` is off or there is none, and a
  held custom resource finalizer still has its resource named by the spec (`Deletion.DeletionTerminatesIff`). Runs that break the
  first and the last of these are `Obstacles.TrackedDefinitionBlocks` and `Obstacles.OrphanedFinalizerBlocks`.
- For the same reason no round ever succeeds when a definition of the chart is at the same time something to prune
  (`Convergence.ConvergesIff`, `Obstacles.TrackedDefinitionConflicts`). And the loop comes to rest if and only if moreover the
  hook does not create what is pruned while the comparison sees no change (`Convergence.RestsIff`), which lists that repeat an
  identifier can bring about (`Obstacles.RepeatedTargetFlaps`).
- A ready state says something about `HelmCRDs` only as long as the render mode is Helm (`Readiness.ReadyMeansCRDsIffHelm`).
- An object whose kind is unknown when it is synced may be pruned as something else once the kind is known; when, is stated
  exactly for both rules of the client library (`Converter.UnmappedMovesIff`).
- A cache write that breaks off is taken for the manifest from then on (`DiskCache.BrokenWriteStays`). Apart from that, the caches
  never show if and only if specs that share a key parse to the same (`SharedCache.TransparentIff`); otherwise one spec gets the
  other one's objects (`SharedCache.CollidingKeysConfuse`, with such keys in `CacheKeys.SlashesMixKeys`).
- YAML documents that share memory are joined as they were if and only if no line break that is appended to one of them replaces
  something else in a later one (`YamlSlices.JoinYAMLDocuments`, `YamlSlices.NeighbourIsSpoiled`). Joining the same documents
  twice gives different texts if and only if a body was directly followed by a marker or was one itself
  (`YamlRejoin.SecondJoinIff`, `YamlRejoin.MarkerRightBehind`). And the joined text splits into the documents that went in if and
  only if none of them holds a marker line of its own (`YamlJoin.JoinRoundTrip`).

## Model

| member | source | states |
|---|---|---|
| `Identity.IDInjective` | pkg/declarative/v2/object.go:100-102 | resources whose components hold no slash have the same identifier only if they are equal |
| `Identity.IDText` | pkg/declarative/v2/object.go:100-102 | namespace, name, group, version and kind, in this order, with slashes between them |
| `Identity.IDCollidesWithSlash` | pkg/declarative/v2/object.go:100-102 | with a slash in a component, two different resources share an identifier |
| `Identity.ResourcesDiff` | pkg/declarative/v2/object.go:69-84 | the method with its swap and its map returns, in order, the resources of the longer list whose identifiers the other lacks |
| `Identity.DiffEmptyIffCovered` | pkg/declarative/v2/object.go:69-84 | the difference is empty exactly when every identifier of the longer list, the first on ties, occurs in the other |
| `Identity.DiffEmptyIffSameIDs` | pkg/declarative/v2/object.go:69-84 | without repetitions in the longer list, the difference is empty exactly when the sets of identifiers are equal |
| `Identity.DiffDetectsChangeIffDistinct` | pkg/declarative/v2/object.go:69-84 | a list is compared correctly against all lists that are not longer if and only if it repeats no identifier |
| `Reconciler.Reconciler.Reconcile` | pkg/declarative/v2/reconciler.go:75-143 | one imperative round, in place and with aliased condition lists, leaves the world, the event log and the result that the protocol function gives |
| `Endings.RoundIsTold` | pkg/declarative/v2/reconciler.go:75-143 | for every world and all answers, a flat list of guards on them tells the result of the round, the persisted state, conditions, list and finalizers, and the objects left alive and terminating |
| `Journals.RoundIsLogged` | pkg/declarative/v2/reconciler.go:75-143 | and so all its events with their contents, in order |
| `Results.ResultIff` | pkg/declarative/v2/reconciler.go:75-143 | exactly when a round is ignored, ends with the full update or succeeds, from its answers; in every other case it asks to be repeated, and an ignored round changes and logs nothing |
| `Results.UpdatedMeans` | pkg/declarative/v2/reconciler.go:128-131 | before the full update, everything tracked, the custom resource and, where they are to be deleted, the definitions were reported not found; the update changes the object unless it is refused |
| `Results.SuccessMeans` | pkg/declarative/v2/reconciler.go:138-142 | a round that succeeds saw no difference, applied the whole target, passed the check and wrote no status |
| `Results.RoundComesBack` | pkg/declarative/v2/reconciler.go:75-143 | every round that reads its object asks to be repeated or changes the object, unless it succeeds or its full update is refused |
| `Reconciler.Reconciler.Initialize` | pkg/declarative/v2/reconciler.go:154-183 | deletion is acknowledged first, then the state and the conditions are set up, as the protocol stage does |
| `Reconciler.Reconciler.Prepare` | pkg/declarative/v2/reconciler.go:91-114 | spec, target client and renderer set up as the protocol stage does, with the same stops |
| `Reconciler.Reconciler.EnsurePrerequisites` | pkg/declarative/v2/helm.go:70-128 | the `HelmCRDs` condition moves as in the protocol: skipped when true and not deleting, false on errors and while not ready |
| `Reconciler.Reconciler.CreateCRDs` | pkg/declarative/v2/helm.go:94-101 | missing definitions are created, and any refused creation is reported |
| `Reconciler.Reconciler.RemovePrerequisites` | pkg/declarative/v2/helm.go:130-143 | definitions are deleted only if configured, after everything else is gone |
| `Reconciler.Reconciler.FailingRender` | pkg/declarative/v2/helm.go:145-175 | a failing render takes back `HelmCRDs` through the condition list that status copies share |
| `Reconciler.Reconciler.RenderTarget` | pkg/declarative/v2/reconciler.go:315-351 | a deleting round has the empty target, any other the rendered one or a persisted error |
| `Reconciler.Reconciler.RenderResources` | pkg/declarative/v2/reconciler.go:194-222 | the `Resources` condition becomes true with the first rendering, and current and target lists are handed on |
| `Reconciler.Reconciler.PreDelete` | internal/manifest/v1alpha1/custom_resource.go:60-96 | the custom resource is deleted first; its finalizer goes, through a second copy, only after it was not found |
| `Reconciler.Reconciler.PostRun` | internal/manifest/v1alpha1/custom_resource.go:23-51 | the custom resource is created if absent and its finalizer added through a patch that leaves the working copy behind |
| `Reconciler.Reconciler.PruneDiff` | pkg/declarative/v2/reconciler.go:377-389 | pre-delete hooks run only in deletion, then the difference is deleted, then prerequisites; waiting, failing and clean ends as in the protocol |
| `Reconciler.Reconciler.Cleanup` | pkg/declarative/v2/reconciler.go:303-313 | all given objects are asked to be deleted; waiting and failing end the stage with the status the protocol gives |
| `Reconciler.Reconciler.CheckReadiness` | pkg/declarative/v2/reconciler.go:255-286 | the ready check's verdict sets the state, and the ready state is written only if it is new |
| `Reconciler.Reconciler.SyncResources` | pkg/declarative/v2/reconciler.go:224-253 | apply, compare with the tracked list, hooks, readiness: same stops and same status as the protocol |
| `Reconciler.Reconciler.FinishDeletion` | pkg/declarative/v2/reconciler.go:128-136 | the full update drops the own finalizer only if nobody wrote the object since it was read |
| `Reconciler.Reconciler.WriteStatus` | pkg/declarative/v2/reconciler.go:450-458 | the status patch overwrites whatever is stored, whatever its version |
| `Reconciler.RunCleanup` | pkg/declarative/v2/cleanup.go:29-62 | deleting object by object in any order gives one outcome per object, the cluster after all deletes and the collected verdict |
| `Reconciler.RunApply` | pkg/declarative/v2/ssa.go:40-66 | applying object by object in any order lands the targets without fault and reports success exactly when none failed |
| `Reconciler.InstallCRDs` | pkg/declarative/v2/crds.go:41-64 | creating definitions in any order creates the missing ones and ignores those that exist |
| `Reconciler.Difference` | pkg/declarative/v2/reconciler.go:121-121 | the pruned objects are those of the current list that no target matches |
| `Books.ReconcileKeepsInv` | pkg/declarative/v2/reconciler.go:75-143 | every round, with any answers, matching rule and lists, keeps each object it ever made in charge of the held object, gone, or on a ledger: applied, mislaid by the matching rule or installed as a definition, and taken off the ledger as soon as a held object is in charge of it |
| `Books.RunsKeepInv` | pkg/declarative/v2/reconciler.go:75-143 | so does every run |
| `LeakFreedom.UntrackedIsForgotten` | pkg/declarative/v2/reconciler.go:229-249 | what the books call untracked was applied by one particular round that did not write it down, or mislaid by one, and no held object has been in charge of it in any state since |
| `LeakFreedom.InstalledIsUnattended` | pkg/declarative/v2/helm.go:73-125 | what they call installed was created by one particular round, and no held object has been in charge of it in any state since |
| `LeakFreedom.LeakFreedom` | pkg/declarative/v2/reconciler.go:116-143 | for all targets and both matching rules: once no finalizer holds the object, something the controller made is in the cluster only if one particular round applied it without writing it down, mislaid it or installed it, and in no state since then was a held object in charge of it |
| `LeakFreedom.AllOrNothingNeverLeaks` | pkg/declarative/v2/reconciler.go:224-253 | with rounds that apply and record everything or apply nothing, and targets that repeat no identifier, only what was mislaid or installed and never looked after since remains |
| `Landing.RoundTracksIff` | pkg/declarative/v2/reconciler.go:224-253 | for all lists: the status tracks everything a round applied if and only if it did before, or every target was applied without an error, the status patch got through, and the comparison saw a change or the hook failed |
| `Landing.FaultlessRoundTracks` | pkg/declarative/v2/reconciler.go:224-253 | with lists that repeat no identifier, a round without an apply error or lost patch tracks everything it applied |
| `Landing.RepeatedListForgets` | pkg/declarative/v2/reconciler.go:235-241 | a round without any error that applies an object, becomes ready and does not track it |
| `Landing.FaultyRoundForgets` | pkg/declarative/v2/reconciler.go:229-233 | a round with a failed apply or lost status patch keeps the old list, so that what it applied beyond that list is in the cluster and not tracked |
| `Landing.PartialApplyForgets` | pkg/declarative/v2/reconciler.go:229-233 | a concrete round that applies one of two objects and leaves it untracked |
| `Escapes.DeletionLeaksExactly` | pkg/declarative/v2/reconciler.go:288-313 | a deletion leaves exactly the objects it was not in charge of, so nothing made remains if and only if everything made was tracked |
| `Landing.RoundLands` | pkg/declarative/v2/reconciler.go:224-253 | whatever a round applied is in the cluster at its end, belongs to its target, and the object is held; and the list is then exactly the target or exactly the old list, by a condition on the answers |
| `Escapes.NothingIsLostIff` | pkg/declarative/v2/reconciler.go:121-121 | each tracked object is dropped or is in the new list if and only if nothing is mismatched: always so by group and kind, and by kind alone exactly when each matched object is there with its own group |
| `Escapes.KindRuleForgets` | pkg/declarative/v2/reconciler.go:121-121 | matching by kind drops nothing although the target is another object |
| `Tracking.RoundTracking` | pkg/declarative/v2/reconciler.go:229-249 | a round keeps the tracked list, or replaces it by a fully applied target after everything dropped was not found; failures and deletions never shrink it |
| `Tracking.RoundExplains` | pkg/declarative/v2/reconciler.go:121-126 | an identifier leaves the tracked list only if the new target matches it or its deletion was answered with not found |
| `Tracking.TrackingSafety` | pkg/declarative/v2/reconciler.go:303-310 | in every run, for an identifier tracked before and not after there is a round in between that explains it |
| `Finalizers.RoundHandover` | internal/manifest/v1alpha1/custom_resource.go:80-94 | a round adds the controller's finalizers only to objects that are not deleted and drops them only from objects that are |
| `Finalizers.DroppedOnlyInDeletion` | pkg/declarative/v2/reconciler.go:128-131 | a finalizer of the controller disappears in a run only if the object is being deleted |
| `Finalizers.RemovedFinalizerNeverReturns` | internal/manifest/v1alpha1/custom_resource.go:80-94 | a removed finalizer never comes back in any later state, although the same round writes an older copy of the object |
| `TraceOrder.RoundObeys` | pkg/declarative/v2/reconciler.go:116-143 | each event of a round obeys the ordering rules in the history before it, against the list that was last persisted |
| `TraceOrder.RunsAreInOrder` | pkg/declarative/v2/reconciler.go:86-138 | in every run: only tracked objects are deleted; for removal exactly the persisted list, after a persisted deleting state and after the custom resource was not found; the finalizer drops after each of them was not found; a target is applied after each tracked object it drops was not found, and only while the own finalizer is on; outside a deletion definitions are installed only then; the persisted list changes only to a target just applied in full |
| `Readiness.ReadyInvariant` | pkg/declarative/v2/reconciler.go:276-282 | in every reachable state, ready implies that `Resources` and `Installation` are true |
| `Readiness.ConditionsNeverRevert` | pkg/declarative/v2/reconciler.go:214-219 | once true, these two conditions stay true |
| `Readiness.ReadyIsEnteredByEntry` | pkg/declarative/v2/reconciler.go:239-252 | ready is entered only by a round in which the apply, the comparison, the hooks and the ready check all succeeded, with the targets and the custom resource in the cluster |
| `Readiness.HelmReadyHasCRDs` | pkg/declarative/v2/helm.go:73-125 | in runs that always render with Helm, ready implies that `HelmCRDs` is true |
| `Readiness.ReadyWithoutCRDs` | pkg/declarative/v2/reconciler.go:353-375 | another mode reaches ready without that condition |
| `Readiness.ReadyMeansCRDsIffHelm` | pkg/declarative/v2/reconciler.go:353-375 | ready implies `HelmCRDs` in all runs of one mode if and only if the mode is Helm |
| `Prerequisites.ClaimIsSeen` | pkg/declarative/v2/helm.go:70-125 | a round that makes `HelmCRDs` true rendered with Helm, loaded its chart, had no definition refused and saw them pass the check, and they are in the cluster |
| `Prerequisites.ClaimWasSeen` | pkg/declarative/v2/helm.go:70-125 | in every run, while `HelmCRDs` is true, one particular earlier round did so, and it was true in every state since |
| `Prerequisites.UnreadyDefinitionsStop` | pkg/declarative/v2/helm.go:80-117 | a Helm round whose chart does not load, or whose definitions are refused or not ready, deletes, applies and checks nothing |
| `Prerequisites.UnreadyDefinitionsAreTold` | pkg/declarative/v2/helm.go:80-117 | it persists the condition false, with the error state exactly when something failed, keeps the list and asks to be repeated |
| `Prerequisites.HelmWorksOnSeenDefinitions` | pkg/declarative/v2/helm.go:70-125 | in every run a Helm round prunes or applies only with definitions that it or an earlier round saw ready, and that were called ready in every state since |
| `Phases.PhasesDoNotMatter` | pkg/declarative/v2/reconciler.go:75-143 | worlds that differ only in which objects are terminating take the same round, with any answers: same events, result, persisted object and objects afterwards |
| `Deletion.DeletingRound` | pkg/declarative/v2/reconciler.go:288-313 | the exact objects and finalizers after one calm deleting round |
| `Deletion.DeletionAdvances` | pkg/declarative/v2/reconciler.go:128-136 | no calm round of a deletion that can finish adds to the outstanding work, whatever is still terminating, and each that leaves nothing terminating takes some away until both finalizers are gone |
| `Deletion.DeletionTerminates` | pkg/declarative/v2/reconciler.go:157-160 | both finalizers are gone once six calm rounds have left nothing terminating, however many others there were in between; and every round until then asked to be repeated or changed the object |
| `Deletion.DeletionTerminatesIff` | pkg/declarative/v2/helm.go:70-77 | calm rounds, with deletes that take any number of rounds, ever end a deletion if and only if the reinstalled definitions are not what has to go, prerequisites are not deleted, and a held custom-resource finalizer has its resource |
| `Obstacles.TrackedDefinitionBlocks` | pkg/declarative/v2/helm.go:70-77 | a run of a new object after which no calm rounds ever end its deletion: it tracks a definition of its chart |
| `Obstacles.OrphanedFinalizerBlocks` | internal/manifest/v1alpha1/custom_resource.go:60-96 | another one: the spec no longer names the custom resource whose finalizer is held |
| `Deletion.DeletionRemovesExactly` | internal/manifest/v1alpha1/custom_resource.go:60-96 | apart from the chart's definitions, a deletion removes exactly the tracked resources and the custom resource |
| `Convergence.PreparingRound` | pkg/declarative/v2/reconciler.go:154-183 | early rounds change the object by exactly one preparation step and nothing in the cluster |
| `Convergence.PruningRound` | pkg/declarative/v2/reconciler.go:121-126 | a round with something to prune deletes exactly that, writes no status and asks to be repeated |
| `Convergence.SyncingRound` | pkg/declarative/v2/reconciler.go:224-286 | a round with nothing to prune brings in exactly the target and its custom resource and moves the status on |
| `Convergence.TurnProgress` | pkg/declarative/v2/reconciler.go:75-143 | no calm round raises the rank over preparation, pruning, tracked list and readiness, whatever is still terminating, and each that leaves nothing terminating lowers it until the object is done |
| `Convergence.Convergence` | pkg/declarative/v2/reconciler.go:75-143 | for all lists, from any state: once nine calm rounds have left nothing terminating, a round succeeds, writes nothing and changes nothing |
| `Convergence.SuccessRecurs` | pkg/declarative/v2/reconciler.go:75-143 | among any calm rounds of which nine leave nothing terminating, some round succeeds, also where the loop never comes to rest; and every round before it asked to be repeated |
| `Convergence.ConvergesIff` | pkg/declarative/v2/reconciler.go:116-143 | some calm round succeeds if and only if nothing that has to be installed has to be pruned |
| `Convergence.RestsIff` | pkg/declarative/v2/reconciler.go:116-143 | some calm round succeeds and changes nothing if and only if moreover the hook does not create what is pruned while the comparison sees no change |
| `Convergence.GoodListsAgree` | pkg/declarative/v2/object.go:69-84 | with lists that repeat no identifier the comparison sees exactly a change of the identifiers, and the hook never creates what is pruned for ever |
| `Obstacles.TrackedDefinitionConflicts` | pkg/declarative/v2/helm.go:73-125 | a run of a new object after which no calm round ever succeeds |
| `Obstacles.RepeatedTargetFlaps` | pkg/declarative/v2/reconciler.go:116-143 | a run after which calm rounds never come to rest: the hook creates what is pruned again and again |
| `Collectors.CollectCleanup` | pkg/declarative/v2/cleanup.go:39-61 | the loop returns nothing exactly when every reply was not found, and a multi-error exactly when there was another error |
| `Collectors.CleanupMeaning` | pkg/declarative/v2/cleanup.go:39-61 | the multi-error holds each other error as often as it arrived |
| `Collectors.CollectReady` | pkg/declarative/v2/ready_check.go:47-76 | the loop reports not ready exactly when some reply says so, and leaves early only then; it succeeds exactly when no reply is an error, and otherwise holds each error as often as it arrived |
| `Collectors.CollectApplies` | pkg/declarative/v2/ssa.go:46-63 | the loop succeeds exactly when no reply is an error, and otherwise holds each error as often as it arrived |
| `Collectors.CollectInstalls` | pkg/declarative/v2/crds.go:41-64 | the loop succeeds exactly when every reply is fine or says that the definition exists, and otherwise returns the first reply that is neither |
| `Collectors.ErrorsAreKept` | pkg/declarative/v2/ssa.go:46-63 | each error is collected as often as it arrived |
| `Collectors.ArrivalOrderDoesNotMatter` | pkg/declarative/v2/cleanup.go:29-62 | all four collectors report the same for every arrival order, with the same multiset of errors |
| `Channels.NoSenderBlocks` | pkg/declarative/v2/ready_check.go:47-68 | in every interleaving every waiting worker can send, even after the receiver left early |
| `Channels.NeverStuck` | pkg/declarative/v2/crds.go:41-64 | no interleaving deadlocks |
| `Channels.InterleavingsAreFinite` | pkg/declarative/v2/cleanup.go:31-48 | the number of steps taken and to come is fixed, so every interleaving ends |
| `Channels.EveryInterleavingReportsTheSame` | pkg/declarative/v2/ready_check.go:47-76 | in every interleaving the ready check reports what it would of all replies, also when it returned early, and a receiver that did not return early has each result once, so that all collectors report the same |
| `Converter.ResourceInfo` | pkg/client/factory.go:207-235 | the info carries the object's names and its mapping, and an object without typed client takes over the mapped kind |
| `Converter.NormaliseNamespaces` | pkg/declarative/v2/resource_converter.go:115-133 | in place, a namespaced info with both namespaces keeps them, one that lacks either gets the default in both, and anything else loses both |
| `Converter.UnstructuredToInfos` | pkg/declarative/v2/resource_converter.go:77-112 | unknown kinds stay in, any other mapping error fails the whole conversion, and the objects end normalised |
| `Converter.NamespacesMeaning` | pkg/declarative/v2/resource_converter.go:115-133 | the same for the values: when both namespaces are kept, when both become the default one, and when both go |
| `Converter.NormalisingTwice` | pkg/declarative/v2/resource_converter.go:115-133 | normalising again changes nothing |
| `Converter.TrackedMeaning` | pkg/declarative/v2/resource_converter.go:39-133 | the resource tracked for an object, from the object: its name, the kind discovery knows or its own, and its own namespace, the default one or none |
| `Converter.ReadBackMeaning` | pkg/declarative/v2/resource_converter.go:59-75 | a list can be read back exactly when every kind is known, and then names and namespaces stay and kinds are those known now |
| `Converter.InfosToResources` | pkg/declarative/v2/resource_converter.go:39-57 | element by element, the mapped kind if there is one and the object's own otherwise |
| `Converter.ResourcesToInfos` | pkg/declarative/v2/resource_converter.go:59-75 | succeeds exactly when every tracked resource has a mapping, without normalising |
| `Converter.RenderResources` | pkg/declarative/v2/reconciler.go:194-222 | target and current lists that a round compares, from manifest objects and status |
| `Converter.ReadableIffMapped` | pkg/declarative/v2/resource_converter.go:59-75 | the tracked list of a target can be read back if and only if the target was fully mapped |
| `Converter.StableTargetPrunesNothing` | pkg/declarative/v2/resource_converter.go:110-133 | read back with a stable mapper, a fully mapped target is the same list, so the next round prunes nothing and sees no difference |
| `Converter.UnmappedMovesIff` | pkg/declarative/v2/resource_converter.go:89-99 | for every matching rule and mapping, an object synced before its kind was known is pruned later exactly when its namespace then is another one |
| `Transforms.ApplyAll` | pkg/declarative/v2/reconciler.go:334-340 | the transforms run in order over all objects, in place |
| `Transforms.Apply` | pkg/declarative/v2/default_transforms.go:19-69 | each default transform assigns its keys to every object, in place |
| `Transforms.DefaultsWrite` | pkg/declarative/v2/default_transforms.go:19-69 | the default transforms write five labels and one annotation, with the owner's component, namespace and name in their places, and change nothing else |
| `Transforms.TransformsKeepIdentity` | pkg/declarative/v2/default_transforms.go:19-69 | no sequence of default transforms touches names, namespaces, kinds, bodies or other labels |
| `Transforms.OnlyTheSetMatters` | pkg/declarative/v2/default_transforms.go:19-69 | what a list of default transforms does depends only on which it holds, not on their order or on how often they run |
| `Hashing.CalculateHash` | internal/util.go:157-166 | the loop computes the 32-bit FNV-1a hash of the marshalled values |
| `Hashing.XorAtBit` | internal/util.go:157-166 | a bit of the exclusive-or is set exactly where one of the two bits is |
| `Hashing.KnownHashes` | internal/util.go:157-166 | two published values of the hash, for nothing and for one letter |
| `Hashing.OneByteNeverCollides` | internal/util.go:157-166 | values that differ in one byte never share a hash |
| `CacheKeys.DashedInjective` | pkg/declarative/v2/inmemory_rendered.go:33-36 | file, mode and hash are determined by the key, whatever dashes the file holds |
| `CacheKeys.NumberOfDecimal` | pkg/declarative/v2/inmemory_rendered.go:33-36 | the digits in a key stand for the hash |
| `CacheKeys.SameKey` | pkg/declarative/v2/inmemory_rendered.go:33-36 | two specs share a memory key exactly when they agree on file, mode and hash of the values |
| `CacheKeys.SlashesMixKeys` | pkg/declarative/v2/inmemory_rendered.go:33-36 | two different specs whose names hold a slash share a key |
| `CacheKeys.SamePlace` | pkg/declarative/v2/renderer_with_cache.go:85-97 | specs sharing a file on disk share a memory key, and the other way round for flat names |
| `DiskCache.Files.Clean` | pkg/declarative/v2/renderer_with_cache.go:103-115 | removes exactly the other files of the directory that come, in the order of their names, before the first that resists, and succeeds exactly when none does |
| `DiskCache.BeforeIff` | pkg/declarative/v2/renderer_with_cache.go:114-114 | the order of the walk is that of the first differing character, a prefix coming first |
| `DiskCache.Files.WriteToFile` | internal/util.go:116-133 | every way a write can end, and what it leaves |
| `DiskCache.Files.Render` | pkg/declarative/v2/renderer_with_cache.go:43-77 | cached text, rendered text or error, with the exact files left behind |
| `DiskCache.NoCollisionsDetermine` | pkg/declarative/v2/renderer_with_cache.go:85-97 | flat names and hashes without collision are enough for keys to determine renderings |
| `DiskCache.CallIsFaithful` | pkg/declarative/v2/renderer_with_cache.go:43-77 | on faithful files a call returns what the renderer would, exactly when no other file resists and the file can be read or is rendered and written; it keeps the files faithful and leaves only the spec's own file in its directory |
| `DiskCache.BrokenWriteStays` | pkg/declarative/v2/renderer_with_cache.go:66-70 | after a write that broke off, later calls return the renderer's text if and only if nothing was cut off |
| `ManifestCache.InMemoryManifestCache.Look` | pkg/declarative/v2/inmemory_rendered.go:38-51 | a hit returns new objects, disjoint from everything cached, with the contents of the entry |
| `ManifestCache.InMemoryManifestCache.Fill` | pkg/declarative/v2/inmemory_rendered.go:53-73 | a miss renders, parses and keeps, and returns new objects disjoint from those it keeps |
| `ManifestCache.InMemoryManifestCache.Parse` | pkg/declarative/v2/inmemory_rendered.go:30-74 | a hit leaves entries and files alone and equals the entry; a miss is what rendering and parsing give on the disk as it was |
| `ManifestCache.Finish` | pkg/declarative/v2/reconciler.go:334-350 | transforms and converter, both in place, give the target as a function of the parsed contents |
| `SharedCache.Shared.Do` | pkg/declarative/v2/inmemory_rendered.go:30-74 | each step of the cache that hands out references is the same step of a cache whose entries and copies are values |
| `SharedCache.Run` | pkg/declarative/v2/inmemory_rendered.go:38-73 | so is every interleaving of any number of reconciles, with colliding keys and arbitrary in-place changes to anything handed out before |
| `SharedCache.EntryStays` | pkg/declarative/v2/inmemory_rendered.go:38-73 | in every interleaving an entry keeps its contents until it expires or is filled again |
| `SharedCache.HitsEqualTheEntry` | pkg/declarative/v2/inmemory_rendered.go:38-51 | and every hit until then hands out exactly these |
| `SharedCache.TraceIsTransparent` | pkg/declarative/v2/inmemory_rendered.go:30-74 | in every interleaving whatever is handed out is what rendering and parsing without caches give, given that specs that share a key parse to the same and that writes do not break off |
| `SharedCache.TargetsAreTrue` | pkg/declarative/v2/reconciler.go:315-351 | every target is the one computed without caches, however late a reconcile transforms and converts what it was handed |
| `SharedCache.CollidingKeysConfuse` | pkg/declarative/v2/inmemory_rendered.go:33-51 | of two specs with one key that parse differently, the second gets the first one's objects: an interleaving from empty caches |
| `SharedCache.TransparentIff` | pkg/declarative/v2/inmemory_rendered.go:30-74 | every interleaving from empty caches hands out only what parsing without caches gives if and only if specs that share a key parse to the same |
| `SharedCache.FlatSpecsAgree` | pkg/declarative/v2/inmemory_rendered.go:30-36 | which specs with flat names and without hash collisions do |
| `YamlJoin.JoinRoundTrip` | internal/util.go:184-206 | splitting the joined text at marker lines gives the bodies of the documents that are not empty, in order, after an empty one if the first was empty, if and only if no body holds a marker line |
| `YamlJoin.EmptyDocumentsAreSkipped` | internal/util.go:190-197 | empty documents add nothing, except that the first one leaves a marker |
| `YamlJoin.Decorated` | internal/util.go:199-203 | white space and one marker on either side are cut off, whatever the combination |
| `YamlJoin.BodyIsCut` | internal/util.go:199-203 | of every document, only white space, one leading marker line and one trailing marker are cut off, and nothing white is left at the ends: no quote, bracket or digit ever goes |
| `YamlMemory.ReadsTruthIff` | internal/util.go:184-206 | documents over shared memory are read as they were before the call if and only if no appended line break replaces something else in a later one |
| `YamlSlices.TrimAndAppend` | internal/util.go:199-203 | the line break lands in the byte behind the body, if there is room in the memory |
| `YamlSlices.JoinYAMLDocuments` | internal/util.go:184-206 | for any slices, also with shared memory, the text is the join of the documents as they are read one after the other, with the exact memory left behind and the exact condition for reading them as they were |
| `YamlSlices.NeighbourIsSpoiled` | internal/util.go:203-203 | of two documents side by side in one buffer the first one spoils the second one |
| `YamlRejoin.BodySurvivesIff` | internal/util.go:199-203 | for every document, the exact condition under which its body survives the first call |
| `YamlRejoin.SecondJoinIff` | internal/util.go:184-206 | for all documents: a second call gives the same text if and only if no body was directly followed by a marker or was one itself |
| `YamlRejoin.MarkerRightBehind` | internal/util.go:199-203 | a document for which it does not |
| `YamlRejoin.JoinTwice` | internal/util.go:184-206 | what two calls on the same slices, which may share memory, return and read; where they do not spoil each other, both texts are the same if no document moved, and only then unless the second call spoils something |
| `PathJoin.CleanFilePathJoin` | internal/util.go:37-64 | refuses exactly colons, parent segments and absolute paths, and otherwise stays below the root and has no empty or dot segments |
| `PathJoin.CleanKeepsSegments` | internal/util.go:61-61 | cleaning keeps what a path names and whether it is absolute |
| `PathJoin.CleanIsTidy` | internal/util.go:61-61 | cleaned text has no empty or dot segments, and cleaning it again changes nothing |
| `PathJoin.UpTakesBack` | internal/util.go:61-61 | a parent segment takes back the one before it, stays at a root, and is kept where a relative path leaves its start |
| `PathJoin.JoinStaysBelow` | internal/util.go:37-64 | the segments of the result are those of the cleaned root followed by the named ones of the path |

## Left out

- The error values beside the four results: that the controller runtime repeats a round whose read, patch or update failed.
- Stale reads, and writes by others inside a round: every round starts from what is stored; between rounds others may write.
- The texts and times of `LastOperation`, `ObservedGeneration`, events, logging and metrics: no decision depends on them.
- The target namespace, API clients, discovery, the client factory and its shared release name: only their answers appear.
- Rendering engines, chart and OCI downloads, archives, the spec resolver and YAML decoding: rendering and parsing are parameters.
- Hooks and transforms other than the two hooks and four transforms that are configured.
- Unknown render modes, which the source maps to no renderer at all.
- Ready checks beyond their three outcomes.
- Hooks that write the status; for the leak and the order results, a `Spec.Resource` that changes during a run.
- Steps of a reconcile inside one look into the shared cache, one filling and one transformation: each is one step.
- The rate limiter, the options and the wiring of the controller.
- The fixed strings of labels and annotations: they are constructors of a datatype, different for different strings.
- Cache directories inside one another and manifest names with slashes: there, cleaning also meets files of other specs.
- Blobs of manifests that are not objects: they are shared between cache and callers and never written.
- White space outside ASCII at the ends of YAML documents.
- YamlSlices.JoinYAMLDocuments: the memory behind slices is a field holding a sequence of fixed length rather than an array.
- Deletion.DeletionTerminates: the bound counts the rounds that leave nothing terminating; how long the API server takes for a delete is not bounded.
- Convergence.Convergence: likewise for the deletes that pruning asks for.
