# A verified model of the kcp init-agent

The init-agent prepares new kcp workspaces. For every `InitTarget` it keeps a manager
that looks at all clusters of one workspace type; for each such cluster it renders the
target's sources to manifests, creates them in hierarchy order, and, once everything is
there, takes its own initializer off the cluster. None of this is under its control
alone: kinds become available when somebody else provides them, other writers and other
agents use the same cluster, calls fail, and the process may end at any moment.

This project models that behaviour in Dafny 4.11 and proves what holds of it over every
interleaving. `dafny verify dfyconfig.toml` checks all of it.

## How the model is built

| file | what it is |
|---|---|
| Wrappers.dfy | a value, or none |
| Slices.dfy | `SortFunc` and `DeleteFunc` on arrays, in place |
| Manifests.dfy | manifests, object keys, weights, `SortObjectsByHierarchy` |
| Protocol.dfy | one cluster as a transition system: one step per API call of the agent, any step of others in between |
| Safety.dfy | every run: safe removal, create-only, quiet after removal |
| Hierarchy.dfy | every pass: ranked kinds first, namespaces before what is in them |
| PassFold.dfy | when a pass asks to run again, an undisturbed pass as a fold over its sources, repeated passes |
| Convergence.dfy | runs with deterministic sources: confluence, which sources get stuck, number of passes |
| Reconciler.dfy | the reconciler and the applier as loops with early exits, proved to take only steps of the protocol |
| Initializers.dfy | one list of initializers, read in possibly old versions and put back as a whole |
| Agents.dfy | several agents on one cluster, one for each InitTarget: each a run of the protocol, what they do to the list, InitTargets of one WorkspaceType |
| Fleet.dfy | a pool of workers on many clusters, seen from one cluster |
| Registry.dfy | the registry of managers: worker, watchers and starters as a transition system |
| TargetReconciler.dfy | the target controller's methods and goroutines, proved to take only steps of the registry |
| Informers.dfy | the informer factories: transition system and the methods that implement it |
| Hosts.dfy | stripping and retargeting the host of a REST config |
| DeepCopy.dfy | the generated deep copies on a heap of slices and pointers |

A run is a sequence of states with one labelled action between any two. Choices that are
not the agent's are in the labels: the content of a possibly outdated cache, what a source
is rendered to, how the sort breaks ties, whether a call fails before or after it took
effect, and all steps of others. The properties quantify over all runs.

The imperative classes (`Reconciler.Client`, `TargetReconciler.Reconciler`,
`Informers.Factory`) carry a ghost history. Their invariant says that this history is a
run of the transition system, so each property of all runs is a property of this code.
What the outside does between two accesses comes from a schedule, which is an arbitrary
parameter.

## Where the code does less than one would think

- `WithTransform` is documented to set a transform on all informers
  (sdk/informers/externalversions/factory.go:87-93). The factory for all clusters stores it
  and never applies it; the scoped one applies a field that its constructor never sets.
  `Informers.TransformIffNotRequested` states exactly when the informers have the requested
  transform: when none is requested. `Informers.TransformIsDropped` is a run that shows it.
- `StripCluster` does not always arrive at a host without a cluster suffix. It takes one suffix
  off a host with two, and of a host with one suffix and slashes after it only the slashes.
  `Hosts.StripIsIdempotentIff` says that exactly these hosts change under a second application,
  `Hosts.StripExamples` gives one of each.
- `ClusterConfig` appends to whatever host it was given. `Hosts.ClusterConfigIsRetarget` says
  exactly for which hosts that is the same as retargeting; `Hosts.ClientKeepsOldCluster` is a host
  for which it is not.
- The patch of the initializers replaces the whole list, as a merge patch does (section 2 of
  RFC 7396), by what the agent read minus its own entry, and what it read comes from a cache.
  `Initializers.AsIntendedIff` and, for runs of the protocol, `Agents.AgentsAsIntendedIff` show that
  every patch removes its own entry and does nothing else, exactly when nothing but this entry changes
  between the version of the list that was read and the patch. Where only agents write the list, that
  means that no other initializer is removed in between (`Initializers.ConservedIffExclusive`,
  `Agents.AgentsConserveIff`). `Initializers.LostRemoval` is a play that goes wrong with up-to-date
  reads, `Initializers.StaleReadRevives` one in which nobody writes between the read and the patch, but
  the read is old. An agent that reads an old list and patches a second time does no harm by that
  (`Initializers.RepeatIsHarmless`).
- The initializer is that of the WorkspaceType. If two InitTargets refer to the same one, the agent of
  the first to finish removes the initializer of both. `Agents.AllReadyIffDistinct` shows that at every
  removal the agents of all InitTargets concerned have been through with a pass, exactly when no two
  InitTargets share a WorkspaceType; `Agents.SharedIsLost` is a run in which the second has not begun.
- A watcher deletes by key, not by instance. A registration that overtakes the watcher of a stopped
  manager of the same UID is what can lead to two live managers: `Registry.UniqueIffNeverOvertakes`
  says that a run holds no such registration exactly if uniqueness holds in every continuation of
  it without one. If the deletion of the UID is final there is none (`Registry.FinalNeverOvertakes`);
  `Registry.StaleReadBreaksUniqueness` is a run that has one and ends with two live managers.
- An `InitTarget` that is merely gone does not stop its manager: `Registry.StoppedIff` and
  `Registry.OnlyTheseStop` list the steps that do.
- A namespace declared by a later source only is declared too late. With all kinds served, a pass
  that nothing interrupts completes exactly if the sources are closed under namespaces
  (`Convergence.PassCompletesIffClosed`); `Convergence.TooLateExample` is a run that fails.
- The resync period of a type that a single `WithCustomResyncConfig` mentions by several objects is that
  of the object ranged over last, so it can differ from run to run:
  `Informers.RangeOrderIrrelevantIff` says exactly when it does not.
- A kind that contains a dot can be weighed like a ranked kind of another group
  (`Manifests.DottedKindIsRanked`).
- internal/manifest/sort_test.go expects objects of equal weight to keep their order in some
  cases. The library does not promise a stable sort, so nothing here relies on it.

## Model

| member | source | states |
|---|---|---|
| `Manifests.RankTable` | internal/manifest/sort.go:46-62 | the weights 0 to 2 of a manifest whose kind has no dot identify CRDs, APIExports and APIBindings by kind and group, weight 3 identifies core Namespaces among all manifests, without regard to case, in both directions |
| `Manifests.WrittenKinds` | internal/manifest/sort.go:28-33 | a CustomResourceDefinition of apiextensions.k8s.io weighs 0, an APIExport of apis.kcp.io 1, an APIBinding of apis.kcp.io 2 and a core Namespace 3, as they are written in manifests and whatever their version, names and content |
| `Manifests.WrittenOthers` | internal/manifest/sort.go:56-58 | a ConfigMap, and a Namespace of another group, weigh 4 |
| `Manifests.LowersLetters` | internal/manifest/sort.go:54 | each capital letter becomes its small one, all other characters stay |
| `Manifests.KindsInOrder` | internal/manifest/sort.go:37-44 | in any result of the sort, nothing but CRDs is before a CRD, and these kinds, as written, are never in the wrong order |
| `Manifests.SameObjectIff` | internal/manifest/applier.go:59-73 | two manifests are of one object exactly if group, kind, namespace and name agree |
| `Manifests.DottedKindIsRanked` | internal/manifest/sort.go:53-62 | the kind APIExport.apis of the group kcp.io weighs as much as an APIExport |
| `Manifests.SortObjectsByHierarchy` | internal/manifest/sort.go:37-44 | the slice ends up sorted by weight and holds the same manifests, ties in any order |
| `Slices.SortFunc` | internal/manifest/sort.go:38 | in-place sorting: sorted by weight and a permutation |
| `Slices.DeleteFunc` | internal/controller/initcontroller/reconciler.go:137-139 | in-place deletion: the kept elements in original order, the rest of the slice blanked, nothing after it touched |
| `Slices.WithoutFirst` | internal/controller/initcontroller/reconciler.go:137-139 | what is before and after a deleted entry keeps its order |
| `Safety.CreateOutcomes` | internal/manifest/applier.go:45-76 | the four outcomes of a create call and all that each changes: an unserved kind gives up the source and not the pass, whatever else is missing; a missing namespace ends the pass; an existing object is left alone; else the object is stored under its key with its content |
| `Safety.FaultOutcomes` | internal/manifest/applier.go:45-54 | a failed call ends the pass, with no effect or, if its reply was lost, with all of it |
| `Safety.NamespacesSeparate` | internal/manifest/applier.go:59-76 | manifests that differ in their namespace only are both created |
| `Safety.OthersCanDoAnything` | internal/controller/initcontroller/reconciler.go:91-132 | between two steps of the agent, others can turn any cluster into any other |
| `Safety.RemovalIsSafe` | internal/controller/initcontroller/reconciler.go:91-132 | in every run, the patch comes only after a pass that read the target and rendered all of its sources; every manifest rendered in that pass was created or found by one of its calls, and from that call on is stored at any later time unless somebody deleted it since |
| `Safety.DeletedWasGone` | internal/controller/initcontroller/reconciler.go:91-132 | where a guarantee excepts objects that somebody deleted, they were really gone for a moment |
| `Safety.RemovedByPatch` | internal/controller/initcontroller/reconciler.go:134-150 | over any run, an initializer that was there and is gone disappeared at one step, which is a patch of the agent or a list written by others without it |
| `Safety.FirstWriterWins` | internal/manifest/applier.go:59-76 | over any run an object keeps its content as long as nobody else writes or deletes it |
| `Safety.NewObjectsAreManifests` | internal/manifest/applier.go:42-76 | an object that appears without another writer was created for a queued manifest whose key was free, with that manifest's content |
| `Safety.QuietAfterRemoval` | internal/controller/initcontroller/reconciler.go:52-66 | with fresh reads and an initializer that is never added again: once it is gone, whoever removed it, it stays gone, and what the agent still creates or patches belongs to the pass that was in flight at that moment |
| `Safety.PassProgress` | internal/controller/initcontroller/reconciler.go:91-118 | at every point, a pass works on the one list it read, which holds the own initializer, and has rendered exactly as many sources of the target it read as the loop has passed |
| `Safety.PassAccounts` | internal/controller/initcontroller/reconciler.go:99-125 | at every point of a pass without a pending requeue, each manifest rendered so far is still queued, or was created or found by a call of this pass and is stored unless deleted since |
| `Hierarchy.RankedFirst` | internal/manifest/sort.go:27-44 | if the ranked kinds are served, every ranked manifest of every source worked off was created or found in this pass, and is stored unless deleted since, whatever else is unserved |
| `Hierarchy.NamespacesAreThere` | internal/manifest/applier.go:42-57 | if namespaces pre-exist or are declared by the same or an earlier source, no create call is refused for want of a namespace, even after sources that stopped early |
| `Hierarchy.QueueStaysInOrder` | internal/manifest/applier.go:42-45 | what is left to create is at any time sorted by weight and was rendered in this pass |
| `PassFold.RequeueIffUnserved` | internal/controller/initcontroller/reconciler.go:99-125 | whatever others write, delete or patch meanwhile: while the same kinds are served, a pass that reaches its end wants a requeue exactly if some source holds an unserved kind |
| `PassFold.PassIsFold` | internal/controller/initcontroller/reconciler.go:99-125 | an undisturbed pass leaves the objects that the fold of insert-if-absent over the served prefixes of its sources gives, and wants a requeue exactly if some source holds an unserved kind |
| `PassFold.InsertAbsentMeaning` | internal/manifest/applier.go:69-73 | existing objects stay; a new key gets the content of the first manifest for it, and only such keys are new |
| `PassFold.ServedPrefixIsLongest` | internal/manifest/applier.go:45-54 | what is created of one source is its longest prefix of served kinds, all of it exactly if no kind is unserved |
| `PassFold.RepeatChangesNothing` | internal/manifest/applier.go:69-75 | a pass whose manifests were all stored when it began, and are not deleted meanwhile, changes no object by any of its steps, whatever others do |
| `PassFold.RepeatKeepsObjects` | internal/manifest/applier.go:69-75 | an undisturbed pass over stored manifests leaves all objects as they were |
| `Convergence.CompletedKeys` | internal/manifest/applier.go:42-76 | from the removal of the initializer on, a key that others neither write nor delete is there exactly if it was at first or a manifest has it, with its first content untouched or that of a manifest, whatever happens to other keys |
| `Convergence.Confluent` | internal/controller/initcontroller/reconciler.go:91-132 | two completed runs over the same sources agree on every key that others touch in neither and that both found the same, and on its content if the manifests for it do not contradict each other, whatever the crashes, faults, ties, requeues and writes to other keys |
| `Convergence.ConfluentObjects` | internal/controller/initcontroller/reconciler.go:91-132 | if others touch no object in either run, they end with the same keys, and with the same objects for consistent manifests |
| `Convergence.Converges` | internal/controller/initcontroller/reconciler.go:99-131 | with sources closed under namespaces that nobody deletes, ranked kinds served, no kind withdrawn, k needed kinds missing at first and at least one more served from a requeue to the next pass: among any k+1 passes that are not interrupted one has removed the initializer, however many others crash or are hit by faults |
| `Convergence.ConvergesUnlessRefused` | internal/controller/initcontroller/reconciler.go:99-131 | the same for any sources, as long as no create call is refused |
| `Convergence.RequeuesBounded` | internal/controller/initcontroller/reconciler.go:120-131 | under the same arrival of kinds, whatever fails or is refused, at most k passes ever ask to run again |
| `Convergence.BudgetHolds` | internal/controller/initcontroller/reconciler.go:120-131 | the measure behind it: requeues so far plus kinds missing at the start of the latest requeued pass never exceed k+1, and some kind was missing there |
| `Convergence.NothingMissingNoRequeue` | internal/controller/initcontroller/reconciler.go:115-124 | a pass during which all needed kinds are served never wants a requeue |
| `Convergence.PassCompletesIffClosed` | internal/controller/initcontroller/reconciler.go:115-131 | with all kinds served and nobody else creating or deleting the namespaces used, a pass that nothing interrupts ends with the patch exactly if each namespace used pre-exists or is declared by the same or an earlier source, and with a refused create call exactly if not |
| `Convergence.ClosedNeverRefused` | internal/manifest/applier.go:42-57 | with such sources, ranked kinds served and nobody deleting a namespace used, no create call of any run is refused, even while other kinds are unserved and others create namespaces |
| `Convergence.NamespaceDeclaredTooLate` | internal/controller/initcontroller/reconciler.go:115-118 | any source, its kinds served, that lacks a namespace which nobody else creates keeps every pass of every run from getting past it, whatever the earlier sources do |
| `Convergence.TooLateLacks` | internal/controller/initcontroller/reconciler.go:115-118 | two sources, the second of which declares a namespace that the first lacks |
| `Convergence.TooLateExample` | internal/controller/initcontroller/reconciler.go:115-118 | a run over these sources that fails at its first create call |
| `Reconciler.Reconcile` | internal/controller/initcontroller/reconciler.go:40-89 | under any interference the method extends the run of the protocol from idle to idle; it fails exactly if the LogicalCluster cannot be read, there is no InitTarget, a source cannot be rendered, or a create call or the patch fails or is refused; each other result corresponds to exactly one kind of last step, with all sources rendered; after the patch the manifests were all created or found, and are stored unless deleted since |
| `Reconciler.ReconcileSources` | internal/controller/initcontroller/reconciler.go:91-132 | the source loop accumulates the requeue flag as the protocol does and ends in a requeue, a patch or a failure, told apart by the result; it fails without a failed call only if there is no InitTarget or at the first source that cannot be rendered |
| `Reconciler.ReconcileSource` | internal/controller/initcontroller/reconciler.go:99-118 | a source that cannot be rendered fails, a rendered one only by a failed or refused create call; given up at an unserved kind, it asks for a requeue and the pass goes on |
| `Reconciler.RemoveInitializer` | internal/controller/initcontroller/reconciler.go:134-150 | the edited list is the original without all own entries, the deep copy still holds the original, and a patch is sent exactly if the initializer was present |
| `Reconciler.Apply` | internal/manifest/applier.go:42-57 | the slice is arranged in place and worked off in that order; the result tells a completed source, one given up at an unserved kind, and a failure apart |
| `Reconciler.ApplyObject` | internal/manifest/applier.go:59-76 | an existing object counts as success, other errors are passed on |
| `Reconciler.Client.Patch` | internal/controller/initcontroller/reconciler.go:141-147 | the changed list replaces the cluster's, and at that moment all rendered manifests were created or found and are stored unless deleted since |
| `Reconciler.Client.Interfere` | internal/controller/initcontroller/reconciler.go:91-132 | before a call, exactly the scheduled steps of others are taken |
| `Initializers.AsIntendedIff` | internal/controller/initcontroller/reconciler.go:134-150 | over any sequence of reads of whatever version, writes, and lists written by others: each removal takes its entry off the list of that moment and does nothing else, exactly if apart from this entry the intended list is the same at the write as in the version read |
| `Initializers.ConservedIffExclusive` | internal/controller/initcontroller/reconciler.go:134-150 | if only agents write the list, it is at all times the first one minus the removed entries, exactly if no other initializer is removed between the version an agent read and its write |
| `Initializers.DisturbedBreaks` | internal/controller/initcontroller/reconciler.go:143 | an initializer removed between the version another agent read and that one's write is back on the list |
| `Initializers.LostRemoval` | internal/controller/initcontroller/reconciler.go:143 | two overlapping windows in which a removal is lost |
| `Initializers.StaleReadRevives` | internal/controller/initcontroller/reconciler.go:48-53 | an outdated read that brings a removed entry back without any overlap |
| `Initializers.RepeatIsHarmless` | internal/controller/initcontroller/reconciler.go:48-53 | a repeated removal after an outdated read, which changes nothing and is within the condition |
| `Agents.AgentsAsIntendedIff` | internal/controller/initcontroller/reconciler.go:91-150 | over any run of several agents on one cluster, with caches of any age and others writing the list, each removal has its intended effect and no other, exactly under that condition |
| `Agents.AgentsConserveIff` | internal/controller/initcontroller/reconciler.go:91-150 | if only agents write the list, it is at all times the first one minus the initializers of those who patched it, exactly if no other one is removed between the version that one read and its patch |
| `Agents.RunIsPlay` | internal/controller/initcontroller/reconciler.go:91-150 | the protocol's reads, patches and ends of passes of all agents are the moves on the list |
| `Agents.RunOfOne` | internal/controller/initcontroller/reconciler.go:40-89 | to each agent, its own steps and what the other agents do to the cluster form a run of the protocol |
| `Agents.AnyVersionIsRead` | internal/controller/initcontroller/reconciler.go:48-53 | between two passes an agent may read the list of any earlier moment, and works from what it read |
| `Agents.AllReadyIffDistinct` | internal/controller/targetcontroller/controller.go:135-153 | in all runs, at each removal of an initializer the agents of all InitTargets with it have been through with a pass, exactly if no two InitTargets have the same initializer |
| `Agents.ReadyHasApplied` | internal/controller/initcontroller/reconciler.go:99-131 | when an agent is through with a pass, every manifest of that pass was created or found and is stored unless deleted since |
| `Agents.SharedIsLost` | internal/controller/targetcontroller/controller.go:141-153 | for any two InitTargets with one initializer, a run in which the first removes it before the second has begun |
| `Fleet.RunOnCluster` | internal/controller/initcontroller/reconciler.go:40-89 | for any interleaving of workers on many clusters, the steps taken on one cluster form a run of that cluster alone |
| `Fleet.StepOnCluster` | internal/controller/initcontroller/controller.go:63-71 | a step on another cluster changes nothing here, a step here is one of the protocol |
| `Fleet.EveryHistoryIsPlayed` | internal/controller/initcontroller/reconciler.go:40-89 | conversely, every history of a cluster that ends between two passes is what some run of the fleet does there, leaving other clusters alone and its workers free |
| `Registry.AtMostOneManager` | internal/controller/targetcontroller/controller.go:125-196 | if a UID seen with a DeletionTimestamp is never again seen without one, this UID has at any time at most one live manager, and it is the one in the map |
| `Registry.RegistryInvariant` | internal/controller/targetcontroller/controller.go:155-196 | under the same hypothesis for a UID: its live manager owns the entry, a watcher still to run owns it or the UID was deleted, and once deleted it has no entry |
| `Registry.StopIsPermanent` | internal/controller/targetcontroller/controller.go:182-196 | under the same hypothesis for a UID: after its cleanup it never has a live manager or an entry again |
| `Registry.NoStuckEntries` | internal/controller/targetcontroller/controller.go:155-169 | in every run each entry has a watcher still to run, and after the root context ended and all watchers ran the map is empty |
| `Registry.FailedIsRestarted` | internal/controller/targetcontroller/controller.go:161-177 | after a failed start the watcher clears the entry and the next reconciliation registers a new live manager |
| `Registry.StoppedIff` | internal/controller/targetcontroller/controller.go:102-123 | in every run a live manager stays live exactly as long as its start does not fail, the application does not end, and no deletion is seen of the UID that holds it in the map |
| `Registry.OnlyTheseStop` | internal/controller/targetcontroller/controller.go:102-123 | while no registration overtakes a watcher: exactly as long as its deletion is not seen, its start does not fail and the application does not end |
| `Registry.UniqueIffNeverOvertakes` | internal/controller/targetcontroller/controller.go:125-177 | no registration of a run overtakes the watcher of a stopped manager of its UID, exactly if every run that continues it from some point without such a registration has at most one live manager of the UID at all times |
| `Registry.OneWatchedHolds` | internal/controller/targetcontroller/controller.go:129-177 | up to the first such registration a UID has one watched manager at most, and a live one is watched and owns the entry |
| `Registry.OvertakingBreaks` | internal/controller/targetcontroller/controller.go:159-169 | after the first such registration the overtaken watcher, a read and a registration give two live managers |
| `Registry.FinalNeverOvertakes` | internal/controller/targetcontroller/controller.go:102-196 | under the same hypothesis for a UID, no registration of it overtakes a watcher, whatever is read of other InitTargets |
| `Registry.StaleReadBreaksUniqueness` | internal/controller/targetcontroller/controller.go:129-169 | a run with a stale read after a deletion and two live managers of one UID |
| `TargetReconciler.Reconciler.Reconcile` | internal/controller/targetcontroller/controller.go:102-123 | steps of the registry only; afterwards a target seen deleting has no entry; one seen alive has one, and no error is returned, whenever its WorkspaceType and a manager could be had; one that had none gets exactly one new manager, live until the application ends; nothing else starts one, and a target not found or not readable neither starts nor stops any |
| `TargetReconciler.Reconciler.EnsureInitController` | internal/controller/targetcontroller/controller.go:125-180 | an existing entry is left alone; otherwise exactly one manager is registered, live until the application ends, or none and an error |
| `TargetReconciler.Reconciler.CleanupController` | internal/controller/targetcontroller/controller.go:182-196 | the manager in the map, if any, is cancelled, its entry and no other is removed |
| `TargetReconciler.Reconciler.RunWatcher` | internal/controller/targetcontroller/controller.go:162-169 | the goroutine removes the entry under its key, whoever owns it |
| `TargetReconciler.Reconciler.Interfere` | internal/controller/targetcontroller/controller.go:161-177 | each goroutine whose turn it is does what it has to: a due watcher is gone, a failed manager is cancelled; no entry is added or moved |
| `Informers.RunOnce` | sdk/informers/externalversions/factory.go:127-150 | over any sequence of operations, started types are registered, each was run once, and the wait group counts the runs that have not returned |
| `Informers.NoInformerRunTwice` | sdk/informers/externalversions/factory.go:136-149 | no informer object is run twice |
| `Informers.StartStartsAll` | sdk/informers/externalversions/factory.go:136-149 | Start leaves no registered informer out, unless the factory is shutting down |
| `Informers.NothingStartsAfterShutdown` | sdk/informers/externalversions/factory.go:132-159 | after the shutdown flag is set nothing is started and the count never rises |
| `Informers.ShutdownIsFinal` | sdk/informers/externalversions/factory.go:152-159 | a shutdown that returned has nothing running ever after |
| `Informers.SameInformer` | sdk/informers/externalversions/factory.go:183-203 | a type keeps its informer forever, with the resync period of the last option that mentions the type, or the default |
| `Informers.LastOptionWins` | sdk/informers/externalversions/factory.go:69-77 | the period after applying all options in order is that of the last entry ranged over in the last option that mentions the type, or the default |
| `Informers.PeriodByIndex` | sdk/informers/externalversions/factory.go:69-77 | by index: the period is that of entry k of option i if no later entry of it is for the type and no later option mentions the type, and the default if none does |
| `Informers.RangeOrderIrrelevantIff` | sdk/informers/externalversions/factory.go:69-77 | the order in which an option's map is ranged over makes no difference to a type exactly if all its objects of this type have the same period |
| `Informers.TransformIffNotRequested` | sdk/informers/externalversions/factory.go:87-93 | informers have the requested transform exactly if the last WithTransform, if any, asks for none, in both factories |
| `Informers.TransformIsDropped` | sdk/informers/externalversions/factory.go:87-93 | a transform requested by one option, and one informer without it |
| `Informers.NoTransform` | sdk/informers/externalversions/factory.go:390-411 | no informer of either factory ever gets a transform |
| `Informers.Factory.InformerForType` | sdk/informers/externalversions/factory.go:183-203 | returns what the table holds for the type; a present type changes nothing, a new one adds one informer with its period |
| `Informers.Factory.BeginShutdown` | sdk/informers/externalversions/factory.go:152-155 | sets the flag, as one step of the factory's run |
| `Informers.Factory.StartAll` | sdk/informers/externalversions/factory.go:127-150 | afterwards exactly the registered types are started, or, after a shutdown, nothing has changed |
| `Informers.Factory.WaitForCacheSync` | sdk/informers/externalversions/factory.go:161-181 | reports exactly the types started at the snapshot, each with its informer's answer |
| `Hosts.MatchIsUnique` | internal/kcp/rest.go:28 | the anchored expression matches a host at one place at most |
| `Hosts.StripUndoesRetarget` | internal/kcp/rest.go:30-42 | stripping a retargeted config gives the stripped config exactly for names that are not empty and have no slash |
| `Hosts.RetargetTwice` | internal/kcp/rest.go:30-35 | only the last retargeting counts, for exactly the same names |
| `Hosts.RetargetIsInjective` | internal/kcp/rest.go:30-35 | retargeted configs are equal exactly if the stripped configs and the names are |
| `Hosts.ClusterConfigIsRetarget` | internal/kcp/clusterclient.go:44-49 | appending equals retargeting exactly if the host has no cluster suffix and no trailing slash |
| `Hosts.RetargetExample` | internal/kcp/rest.go:30-42 | https://kcp retargeted to root is https://kcp/clusters/root, by both ways, and stripping gets back; the rest of the config is kept |
| `Hosts.ClientKeepsOldCluster` | internal/kcp/clusterclient.go:44-49 | for https://kcp/clusters/root it does not: the client goes to /clusters/root/clusters/a |
| `Hosts.StrippedClientRetargets` | cmd/init-agent/main.go:96-97 | a client created with a stripped config gives each cluster the retargeted config, whatever cluster the config was pointed at before, and stripping gets back |
| `Hosts.StripIsIdempotentIff` | internal/kcp/rest.go:37-42 | stripping twice is stripping once for all hosts but those that end in a cluster suffix and then slashes, another cluster suffix, or both |
| `Hosts.StripLeavesOne` | internal/kcp/rest.go:37-42 | of exactly these hosts stripping leaves the first cluster suffix, which only a second application takes off |
| `Hosts.StripExamples` | internal/kcp/rest.go:37-42 | three literal hosts: one with two suffixes, one with a suffix and a slash, one with a suffix only |
| `DeepCopy.CopyList` | sdk/apis/initialization/v1alpha1/zz_generated.deepcopy.go:73-95 | the copy has the same value, null slices and pointers included, and all objects reachable from it are new |
| `DeepCopy.ListMeans` | sdk/apis/initialization/v1alpha1/zz_generated.deepcopy.go:73-95 | two lists have the same value exactly if their metadata agree and their items are null together, of one length, and agree in all fields |
| `DeepCopy.ListReaches` | sdk/apis/initialization/v1alpha1/zz_generated.deepcopy.go:73-95 | the objects of a list are itself, its items, their sources and their templates |
| `DeepCopy.CopyTargets` | sdk/apis/initialization/v1alpha1/zz_generated.deepcopy.go:78-84 | element by element the same values, new slices and templates |
| `DeepCopy.TargetMeans` | sdk/apis/initialization/v1alpha1/zz_generated.deepcopy.go:43-48 | two InitTargets have the same value exactly if type, metadata and workspace type agree and their sources are null together, of one length, and agree in their templates |
| `DeepCopy.CopySources` | sdk/apis/initialization/v1alpha1/zz_generated.deepcopy.go:106-116 | the same sources in a new slice with new templates |
| `DeepCopy.WritesStayApart` | sdk/apis/initialization/v1alpha1/zz_generated.deepcopy.go:73-95 | writes to the objects of one list do not change the value of a list that shares none of them |

## Left out

- Template rendering and YAML decoding: a source yields an arbitrary sequence of manifests, or fails.
- REST clients, listers, fakes, schemes and apply configurations: wrappers around libraries.
- controller-runtime and multicluster-runtime: per-key exclusion, a single worker for the target controller, and a manager whose start returns without error only after its context ended are taken for granted.
- Time: the five seconds before a requeue and the resync periods are only carried along, and nothing is said about when a schedule gets to its next step.
- Logging, events, metrics, leader election, flags and label filters.
- Races on the map of cancel functions as the Go memory model sees them: each access to the map is one atomic step.
- A missing path annotation makes the reconciler panic; this counts as a failed pass.
- Manifests with a generated name, for which a second create would not meet an existing object.
- Lower-casing is that of ASCII, which kinds and groups are made of.
- NamespacesAreThere: manifests of the four ranked kinds are taken to carry no namespace, because these kinds are cluster-scoped.
- RankTable: for kinds that contain a dot, weights below 3 are not read off kind and group, because the code compares the joined text only.
- The workings of `slices.SortFunc`: any in-place sort with its contract would do here.
- Of the deep copies, those without slices or pointers and those of metadata, which are plain values here. A copy is returned instead of written through an out pointer, except into slice elements.
- WithTweakListOptions and WithNamespace: they do not reach the informer table.
