# Helm Broker: a verified model of its core

Helm Broker offers Helm charts as services of the Open Service Broker API. This project models the parts of
it in which something can go wrong across calls, and proves what they keep.

* **Instance lifecycle.** Provision and Deprovision are two services with two mutexes. Each writes an operation
  record, answers, and leaves an asynchronous worker to run Helm, write or remove the instance record and close
  the operation. `Lifecycle` is that protocol as an interleaved step system with one step per storage call;
  `LifecycleInvariant` proves what every step keeps and `LifecycleRuns` what follows for every run.
  `LifecycleAnswers` says what every uninterrupted request is answered, and what each answer means in any
  interleaving; `LifecycleOutcomes` ties how an operation ends to what Helm and the other stores said.
  `LifecycleReach` are the courses requests and workers take when nothing fails, and `LifecycleFinish` says which
  operations can still finish. `LifecycleCrossing` finds the only ways for two Creates of an instance to succeed,
  `LifecycleRace` and `LifecycleRepeat` show that each of them does happen, `LifecycleRepeat` also when a request is
  taken for a repetition, and `LifecycleReleases` says which instances can share a Helm release.
* **Operation stores.** `Operations` is the in-memory store and `EtcdOperations` the flat-key one; no sequence of
  calls can tell them apart. `OperationQueries` reads instance and binding states off lists of operations.
* **Addons reconciler.** Configurations compete for the right to register addons in one store. `Collections` and
  `CollectionReview` are the review inside one configuration, `Reconciler` is the whole system (a reconcile is one
  step), `ReconcilerEffects`, `ReconcilerInvariant`, `ReconcilerRuns`, `ReconcilerCharts`, `ReconcilerWakeUps`,
  `ReconcilerStranded`, `ReconcilerCauses` and `ReconcilerRetries` are its properties, and `Controller` is the code: loops over a two-map
  store, proved to compute exactly the steps of `Reconciler`. `ControllerRuns` drives the code through whole runs.
* **Addon store.** `AddonStore` is the two-map store with stale mappings and self-healing, `AddonTable` the one table
  it stands for, `AddonLedger` what every run of calls on it is answered, `AddonRecords` the table as one controller
  sees it, and `AddonRetrieval` the reconciler's promises read at the store.
* **Values.** `Values` is the recursive merge of chart values with its laws. `MergeInPlace` is the code: an in-place
  merge of maps shared by reference, proved to compute that merge and to leave everybody else's maps alone.
* **Credentials and names.** `Resolver` is the three-policy credential resolver; `ReleaseNames` are Helm release names.

Where the code and a stronger promise disagree, the code is modelled as it is. The failing case is a lemma, and
beside it stands the condition under which the promise holds:

| promise | where it fails | when it holds |
|---|---|---|
| every accepted operation finishes | a missing plan is noticed after the Create was inserted (`MissingPlanLeavesOrphan`); the operation stays and blocks its instance for ever (`OrphanBlocksInstance`) | an operation can still finish if and only if it is neither orphaned nor held by a request whose plan is missing (`FinishableIff`), and only that orphans it (`OrphanedOnlyByMissingPlan`) |
| one Create per instance succeeds | after a Remove has succeeded, in any number and with any parameters (`RemovedTakesManyCreates`, `CreatesAgain`); and when a step crosses, a worker finishing between the two checks of the next request (`CrossingLeadsToTwoCreates`, `TwoCreatesCanSucceed`) | in every run, until a step crosses or a Remove has succeeded before the later Create was inserted (`TwoCreatesNeedCrossing`) |
| a repeated Provision is recognised | the instance was removed once: it counts as not provisioned for ever | a request that is not interrupted is, if and only if a Create has succeeded and no Remove ever has (`RepetitionIff`); otherwise it is accepted (`AcceptedOtherwise`) |
| whoever is blocked is due when the addon is let go | the owner runs into a fetching error (`FetchErrorStrands`), or had failed for another reason and then drops the addon or is deleted (`FailedOwnerDropsAndStrands`, `FailedOwnerDeletedStrands`) | in every run those are the only causes (`StrandedHasCause`, `BlockedIsDueWhenReleased`); who is asked, exactly (`AskedIff`, `AskedIffLoaded`) |
| a ready configuration with nothing wrong stays ready | one that failed to fetch reports the addon unreviewed (`FetchErrorEvicts`) | exactly when no other one, not ready itself, reports one of its pairs as ready (`EvictedIff`) |
| the addon store is one table | one ID for two entries, or two IDs for one (`GivesAway`) | exactly when names and versions correspond to IDs one to one (`OneTableIff`) |
| `Upsert` tells whether an addon was replaced | mappings outlive removals (`ReplacedAfterRemoval`) | exactly when the entry was not removed, or was inserted or healed since (`ReplacedIff`) |
| flat keys tell operations apart | an instance ID with a slash (`SlashBreaksKeys`) | exactly for instance IDs none of which, with its slash, starts another (`EtcdOperations.KeysClashIff`, `DriversIndistinguishableIff`) |
| joined keys tell addons apart | a bar in a namespace or version (`BarBreaksKeys`) | exactly unless namespaces and versions both overlap (`AddonTable.KeysClashIff`) |
| the merge is associative | the middle tree cuts off what the outer two share (`MergeNotAssociative`) | exactly when it is (`MergeAssociativeIff`) |
| release names identify instances | one ID is the other behind a short prefix and a dash (`GapAllowsSharing`, `ReachesSharing`) | exactly otherwise, for names (`CanShareIff`) and over runs (`SharedReleaseIff`), so for equal lengths (`ReleaseNameIdentifies`) |

Assumptions, each stated where it is used: instance IDs of 36 bytes where lengths matter; no legacy
parameter hashes; the provisionOnlyOnce flag of a service does not change; addon IDs correspond one to one to
name and version within a namespace, and versions are canonical (text and rendering agree); the loader lets no addon without an ID through;
namespaces and versions contain no `|`, versions no `/`.

`dafny verify dfyconfig.toml` checks everything.

## Model

| member | source | states |
|---|---|---|
| Values.MergeAt | internal/broker/provision.go:325-355 | The merge described from outside, for every path: nothing where src cuts the path off, else src's value, else dest's, with two maps merged. |
| Values.MergeEmptyRight | internal/broker/provision.go:325-355 | The empty map is a unit on the right. |
| Values.MergeEmptyLeft | internal/broker/provision.go:325-355 | The empty map is a unit on the left. |
| Values.MergeKeepsSourceLeaves | internal/broker/provision.go:338-341 | Every leaf of src is in the result at its path. |
| Values.MergeKeepsDestLeaves | internal/broker/provision.go:326-331 | A leaf of dest survives when src neither defines its path nor cuts it off, and otherwise does not. |
| Values.AbsorbedIffMergeIsSource | internal/broker/provision.go:325-355 | Merging src over dest gives src itself exactly when src already covers all of dest. |
| Values.MergeIdempotent | internal/broker/provision.go:325-355 | Merging the same overrides twice is merging them once. |
| Values.MergeAssociativeIff | internal/broker/provision.go:325-355 | The merge of three trees is associative if and only if the middle one nowhere hides, under a non-map, something the outer maps would have to keep. |
| Values.MergeAssociative | internal/broker/provision.go:325-355 | It is associative when at no common path the middle tree has a non-map where the outer two have maps. |
| Values.MergeNotAssociative | internal/broker/provision.go:347-350 | A concrete triple for which it is not. |
| MergeInPlace.MergeTreeIsMerge | internal/broker/provision.go:325-355 | The merge of two heap regions, map object by map object, reads as the merge of their values. |
| MergeInPlace.MergeTreeNodes | internal/broker/provision.go:325-355 | The merged region consists of map objects of dest and src only. |
| MergeInPlace.Heap.MergeValues | internal/broker/provision.go:325-355 | With keys visited in any order the in-place merge terminates, leaves the merged region at dest, returns dest, and changes no map outside dest's region. |
| MergeInPlace.Heap.MergeKey | internal/broker/provision.go:326-353 | One turn of the loop settles one key and disturbs none that is settled or still to come. |
| MergeInPlace.Heap.DeepCopy | internal/broker/provision.go:378-391 | The copy has the same values, shares no map with anything that existed, and changes nothing that existed. |
| MergeInPlace.Heap.CopyOrEmpty | internal/broker/provision.go:378-391 | A nil map is copied to a new empty one. |
| MergeInPlace.Heap.InstallValues | internal/broker/provision.go:213-220 | The installed values are the plan's merged with the overrides, always with the repository URL; the plan's values and the request parameters, which the instance record shares, are unchanged. |
| Operations.InstanceOperation.Insert | internal/storage/driver/memory/entity_operation.go:35-65 | Refuses empty IDs, a known operation and an instance with any operation in progress; otherwise stores the operation with its creation time. |
| Operations.InstanceOperation.Get | internal/storage/driver/memory/entity_operation.go:68-89 | Finds exactly the stored operations; empty IDs are an error of their own. |
| Operations.InstanceOperation.GetAll | internal/storage/driver/memory/entity_operation.go:92-107 | Lists every operation of the instance exactly once, in no particular order, or reports that there are none. |
| Operations.InstanceOperation.UpdateState | internal/storage/driver/memory/entity_operation.go:110-123 | Sets the state and clears the description of an existing operation. |
| Operations.InstanceOperation.UpdateStateDesc | internal/storage/driver/memory/entity_operation.go:127-140 | Sets state and description and nothing else. |
| Operations.InstanceOperation.Remove | internal/storage/driver/memory/entity_operation.go:155-168 | Removes the operation, and the instance with its last one. |
| Listings.Collect | internal/storage/driver/memory/entity_operation.go:101-106 | Ranging over a map yields each value once, whatever the order. |
| EtcdOperations.InstanceOperation.Insert | internal/storage/driver/etcd/entity_operation.go:52-91 | Refuses empty IDs, a known key and an instance with any operation in progress; otherwise puts the operation. |
| EtcdOperations.InstanceOperation.IsOperationInProgress | internal/storage/driver/etcd/entity_operation.go:93-111 | The scan over the instance's prefix finds an operation in progress exactly when there is one. |
| EtcdOperations.InstanceOperation.Get | internal/storage/driver/etcd/entity_operation.go:114-137 | Reads the operation under the joined key. |
| EtcdOperations.InstanceOperation.GetAll | internal/storage/driver/etcd/entity_operation.go:140-161 | Returns what the prefix scan finds; an empty scan is not found. |
| EtcdOperations.InstanceOperation.UpdateState | internal/storage/driver/etcd/entity_operation.go:188-190 | As UpdateStateDesc without a description. |
| EtcdOperations.InstanceOperation.UpdateStateDesc | internal/storage/driver/etcd/entity_operation.go:194-217 | Rewrites one operation under its key. |
| EtcdOperations.InstanceOperation.Remove | internal/storage/driver/etcd/entity_operation.go:220-235 | Deletes one key, or reports that it is not there. |
| EtcdOperations.KeysClashIff | internal/storage/driver/etcd/entity_operation.go:238-246 | Two instances can share a key exactly when the prefix of one starts with that of the other. |
| EtcdOperations.SlashBreaksKeys | internal/storage/driver/etcd/entity_operation.go:238-240 | For example with a slash in an instance ID. |
| EtcdOperations.PrefixIffSameInstance | internal/storage/driver/etcd/entity_operation.go:244-246 | Among prefix-free instance IDs a key carries an instance's prefix exactly when it is that instance's key. |
| EtcdOperations.KeyReadsBack | internal/storage/driver/etcd/entity_operation.go:238-240 | Among them both IDs can be read back from the joined key. |
| EtcdOperations.KeyInjective | internal/storage/driver/etcd/entity_operation.go:238-240 | Among them keys are injective, whatever operation IDs contain. |
| EtcdOperations.ScanIsInnerMap | internal/storage/driver/etcd/entity_operation.go:140-161 | The prefix scan finds exactly the operations of the inner map of the memory store. |
| EtcdOperations.CallsAgree | internal/storage/driver/etcd/entity_operation.go:52-235 | One call on both stores: the same answer, and the stores still hold the same operations. |
| EtcdOperations.RunsAgree | internal/storage/driver/etcd/entity_operation.go:52-235 | Any sequence of calls on agreeing stores gets the same answers. |
| EtcdOperations.DriversIndistinguishableIff | internal/storage/driver/etcd/entity_operation.go:52-235 | From fresh stores no sequence of calls about a set of instances tells the two drivers apart if and only if the set is prefix-free. |
| EtcdOperations.DriversIndistinguishable | internal/storage/driver/etcd/entity_operation.go:52-235 | In particular for all slash-free, non-empty instance IDs. |
| OperationQueries.IsProvisioned | internal/broker/operation_state.go:13-37 | Whatever the order: some Create succeeded and no Remove did. |
| OperationQueries.IsDeprovisioned | internal/broker/operation_state.go:64-85 | Whatever the order: some Remove succeeded. |
| OperationQueries.IsInProgress | internal/broker/operation_state.go:39-62 | The first operation of the wanted type in progress, if there is one. |
| OperationQueries.SomeOpOfStore | internal/broker/operation_state.go:13-37 | What is read off any listing is a fact about the store. |
| OperationQueries.FirstInProgressIsOne | internal/broker/operation_state.go:39-62 | The reported ID is one of an operation in progress. |
| OperationQueries.InProgressIDIsUnique | internal/broker/operation_state.go:39-62 | With one operation in progress per instance the reported ID does not depend on the order. |
| OperationQueries.IsBound | internal/broker/operation_state.go:116-141 | Whatever the order: bound exactly when some Create of this binding succeeded and no Remove did; the operation returned is such a Create. |
| OperationQueries.IsBindingInProgress | internal/broker/operation_state.go:143-165 | In progress exactly when some Create of this binding is; its ID is returned. |
| ReleaseNames.ReleaseNameFits | internal/broker/provision.go:313-322 | At most 53 bytes with 36-byte instance IDs, for all addon and plan names. |
| ReleaseNames.ReleaseNameIdentifies | internal/broker/provision.go:313-322 | Equal names mean equal IDs of equal length, whatever dashes the other parts contain. |
| ReleaseNames.NormalizeTrims | internal/broker/provision.go:305-311 | A part is the name cut to six bytes, without the dashes at its ends and nothing else lost. |
| ReleaseNames.ReleaseNameShape | internal/broker/provision.go:313-322 | hb, the trimmed addon name, the trimmed plan name and the instance ID, in this order with dashes between; short tidy names stay as they are. |
| ReleaseNames.CanShareIff | internal/broker/provision.go:313-322 | Two instances can share a release name, for some addons and plans, exactly when one ID is the other behind a dash and one of the short prefixes that can be taken for the end of a plan name. |
| ReleaseNames.GapAllowsSharing | internal/broker/provision.go:313-322 | Every such pair of IDs does share a name, with parts given. |
| LifecycleInvariant.ProvisionInsertKeeps | internal/broker/provision.go:116-126 | Inserting a Create keeps the invariant, whoever else is at work. |
| LifecycleInvariant.ProvisionUpsertKeeps | internal/broker/provision.go:136-171 | Writing the record and starting the worker keeps the invariant, one record per namespace included. |
| LifecycleInvariant.DeprovisionInsertKeeps | internal/broker/deprovision.go:80-94 | Inserting a Remove and starting its worker keeps the invariant. |
| LifecycleInvariant.WorkerRecordKeeps | internal/broker/provision.go:243-252 | The worker's late upsert, made without the provision mutex, keeps the invariant. |
| LifecycleInvariant.WorkerRemoveRecordKeeps | internal/broker/deprovision.go:134-141 | Removing the record keeps the invariant. |
| LifecycleInvariant.WorkerCloseKeeps | internal/broker/provision.go:256-268 | Closing an operation keeps the invariant. |
| LifecycleInvariant.StepKeeps | internal/broker/provision.go:43-269 | Every step of requests and workers keeps the invariant. |
| LifecycleInvariant.InsertKeepsActive | internal/storage/driver/memory/entity_operation.go:35-65 | An insert into an instance with nothing in progress leaves every instance with at most one operation in progress. |
| LifecycleInvariant.RunKeeps | internal/broker/provision.go:43-269 | The invariant holds in every reachable state of every interleaving. |
| LifecycleRuns.StoresUntouched | internal/broker/provision.go:43-269 | Which steps can change operations and records at all, and that no other does. |
| LifecycleRuns.RecordChangesUnderOwnOperation | internal/broker/provision.go:124-269 | A record is written only while that instance's Create is in progress and removed only while its Remove is. |
| LifecycleRuns.OperationStep | internal/broker/provision.go:256-268 | How one step may move one operation: inserted in progress, finished by its own worker, or unchanged. |
| LifecycleRuns.AtMostOneInProgress | internal/storage/driver/memory/entity_operation.go:35-65 | In every reachable state each instance has at most one operation in progress, although the services share no lock. |
| LifecycleRuns.OperationChangesOnce | internal/broker/deprovision.go:144-154 | Along every run an operation keeps its identity and its state changes at most once. |
| LifecycleRuns.FinishedByOwnWorker | internal/broker/provision.go:256-268 | Whoever finishes an operation is the worker that owns it. |
| LifecycleRuns.DeprovisionedForever | internal/broker/operation_state.go:64-85 | Once a Remove has succeeded the instance is deprovisioned, and not provisioned, in every later state. |
| LifecycleRuns.CreateSucceedsWithRecord | internal/broker/provision.go:243-268 | When a Create becomes succeeded the record is there, with that Create's parameters. |
| LifecycleRuns.AbsentUntilCreate | internal/broker/provision.go:124-154 | An absent record stays absent until a later Create is inserted. |
| LifecycleRuns.RemovedStaysAbsent | internal/broker/deprovision.go:134-154 | When a Remove becomes succeeded the record is gone, and stays gone until a later Create. |
| LifecycleRuns.ProvisionedHasRecord | internal/broker/provision.go:60-71 | A provisioned instance with no Remove in progress has its record. |
| LifecycleRuns.ProvisionedOnlyOnce | internal/broker/provision.go:99-154 | A provisionOnlyOnce service has at most one record per namespace in every reachable state. |
| LifecycleRuns.ReleasesAreDistinct | internal/broker/provision.go:305-322 | In every reachable state records of different instances have different release names that fit Helm's limit. |
| LifecycleReleases.SharedReleaseIff | internal/broker/provision.go:305-322 | From the beginning a state can be reached in which two different instances share a release if and only if one ID is the other behind such a prefix. |
| LifecycleReleases.ReachesSharing | internal/broker/provision.go:136-171 | The run: both are provisioned, one after the other, with addons and plans so named. |
| LifecycleRuns.OwnershipStep | internal/broker/provision.go:124-171 | How an operation passes from a request to a worker to nobody. |
| LifecycleAnswers.ProvisionIsAtomic | internal/broker/provision.go:43-180 | The answer to every Provision that nobody interrupts, after any run, and what it leaves in the stores: repeated, in conflict, already being created (the answer names that Create), refused for the namespace, the addon, provisionOnlyOnce, the ID or the plan, or accepted, with the new operation, record and worker field by field. |
| LifecycleAnswers.DeprovisionIsAtomic | internal/broker/deprovision.go:31-103 | The same for Deprovision: gone without operations; already done if and only if a Remove has succeeded; the Remove in progress, if there is one; gone without a record; and otherwise a new Remove, its worker and an answer that names it. |
| LifecycleAnswers.ProvisionTellsTruth | internal/broker/provision.go:60-180 | In every interleaving an answer of Provision is true when it is given: done, or in conflict, only if a Create of the instance has succeeded and the record has the same, or other, parameters; accepted only for a Create in progress of the instance. |
| LifecycleAnswers.DeprovisionTellsTruth | internal/broker/deprovision.go:38-103 | In every interleaving Deprovision says done only if a Remove of the instance has succeeded, and accepted only for a Remove in progress of the instance. |
| LifecycleAnswers.SynchronousRefused | internal/broker/provision.go:43-49 | Requests that do not accept an asynchronous answer are refused and touch nothing, whoever else is served. |
| LifecycleAnswers.AllowedIffFree | internal/model.go:218-233 | An addon may be provisioned exactly when it is not flagged provisionOnlyOnce or no record in the namespace is of its service. |
| LifecycleOutcomes.RunFinished | internal/broker/provision.go:204-269 | In every reachable state a Create has succeeded only if Helm installed its release and failed only if that was refused; a Remove has succeeded only if Helm and the bind data let go and failed only if one of them did not. |
| LifecycleOutcomes.SucceededWithRevision | internal/broker/provision.go:232-268 | When a Create becomes succeeded the record carries a revision that Helm reported for it. |
| LifecycleOutcomes.EndsAsTold | internal/broker/provision.go:222-268 | Once Helm has refused an install the Create never succeeds and is failed as soon as its worker has closed it; once it has installed it never fails. The same for what a Remove is told. |
| LifecycleOutcomes.RecordSurvivesFailure | internal/broker/deprovision.go:113-155 | A Remove that fails leaves the record as it was when the Remove was inserted. |
| LifecycleRuns.OrphanedOnlyByMissingPlan | internal/broker/provision.go:124-135 | An operation in progress loses its owner only through a plan that is not there. |
| LifecycleRuns.MissingPlanOrphans | internal/broker/provision.go:124-135 | A plan that is not there always leaves the Create in progress without an owner. |
| LifecycleRuns.OrphanBlocksInstance | internal/storage/driver/memory/entity_operation.go:54-58 | Such an operation stays for ever and no other operation of its instance is ever accepted. |
| LifecycleFinish.FinishableIff | internal/broker/provision.go:124-171 | In every reachable state some continuation finishes an operation in progress if and only if it is neither orphaned nor held by a request whose plan is missing. |
| LifecycleFinish.WorkerFinishes | internal/broker/provision.go:204-269 | Every worker, of a Create or a Remove and at whatever point, can run to the end and finish its operation. |
| LifecycleFinish.ExecStuck | internal/storage/driver/memory/entity_operation.go:54-58 | Whatever happens, an orphaned operation, or one about to be orphaned, never finishes. |
| LifecycleCrossing.UncrossedRunIsSole | internal/broker/provision.go:60-79 | In every interleaving without a crossing all but one of the Creates of an instance that was never removed have failed, and a request past its checks has seen so. |
| LifecycleCrossing.TwoCreatesNeedCrossing | internal/broker/provision.go:60-79 | In every interleaving two Creates of one instance have both succeeded only if a worker marked its Create succeeded while a request for the instance was between its two checks of it, or if a Remove had succeeded before the later Create was inserted. |
| LifecycleRace.CrossingLeadsToTwoCreates | internal/broker/provision.go:60-79 | After every such step, whenever the request can be served, the run goes on to two succeeded Creates. |
| LifecycleRace.TwoCreatesCanSucceed | internal/broker/provision.go:60-79 | Every request can be raced into it from the beginning. |
| LifecycleRace.MissingPlanLeavesOrphan | internal/broker/provision.go:124-135 | Every request for a plan the addon lacks leaves an operation in progress that nobody owns. |
| LifecycleRepeat.UncrossedRunKeepsParameters | internal/broker/provision.go:136-171 | Without a crossing the record of an instance that was never removed carries the parameters of the Create that succeeded. |
| LifecycleRepeat.RepetitionIff | internal/broker/provision.go:60-71 | After any run, an uninterrupted Provision of an instance with nothing in progress is answered as a repetition, with the stores untouched, if and only if a Create has succeeded and no Remove ever has. |
| LifecycleRepeat.AcceptedOtherwise | internal/broker/provision.go:73-180 | Otherwise, with the addon allowed and the plan there, it is accepted and a new Create with its own parameters is in the store. |
| LifecycleRepeat.RepeatedProvision | internal/broker/provision.go:60-71 | After any interleaving without a crossing, a repetition of a provisioned instance with no Remove in progress is answered without conflict exactly when its parameters equal those of the Create that succeeded, whatever failed before, and touches no store. |
| LifecycleRepeat.RecordHasParameters | internal/broker/provision.go:271-295 | The record it is compared with is there and carries those parameters. |
| LifecycleRepeat.CreatesAgain | internal/broker/operation_state.go:13-37 | Whenever an instance is quiet and not provisioned, be it because it was removed, one more Create succeeds without any request being interrupted, and it is quiet again. |
| LifecycleRepeat.RemovedTakesManyCreates | internal/broker/operation_state.go:25-33 | A run, for every instance, without interrupted requests in which two Creates with different parameters are inserted after a Remove and both succeed. |
| LifecycleRepeat.SerialRunsAreUncrossed | internal/broker/provision.go:43-79 | Runs in which no request is interrupted have no crossing. |
| LifecycleRepeat.TwoCreatesNeedRemove | internal/broker/provision.go:60-79 | So in them two Creates have both succeeded only if a Remove had, before the later was inserted. |
| Resolver.ReadSources | internal/bind/resolver.go:46-56 | Succeeds exactly when every source is readable; every key has the value of the last source that has it, and there are no other keys. |
| Resolver.ReadEntries | internal/bind/resolver.go:58-76 | Succeeds exactly when every consulted value is readable and no effective name repeats; an error is that of the first entry that cannot be read or, being readable, repeats a name. |
| Resolver.SetAll | internal/bind/resolver.go:78-81 | Setting all pairs in any order is overriding one map with the other. |
| Resolver.Resolve | internal/bind/resolver.go:40-85 | Succeeds exactly when all it consults is readable and no two effective entries share a name; each key then has its entry's value, else that of the last source with the key, and there are no other keys; an error is that of the first thing that is wrong. |
| Resolver.ResolutionIsUnique | internal/bind/resolver.go:34-39 | The three policies leave one possible answer, whatever order maps are ranged over. |
| Resolver.SourcesReadableIff | internal/bind/resolver.go:87-98 | All sources are readable exactly when each names a config map that is there or, naming none, a secret that is there. |
| Resolver.EntriesReadableIff | internal/bind/resolver.go:100-183 | All consulted entries are readable exactly when the first of secret key, config map key and service path that each names leads to a value. |
| Resolver.CredentialsComeFrom | internal/bind/resolver.go:40-114 | A key has a value in the result exactly when an entry of that name has it, literally or in the object it refers to, or, without such an entry, when the last source with the key has it in the config map, or else the secret, that it names. |
| AddonStore.Store.constructor | internal/storage/driver/memory/entity_addon.go:15-20 | A new store is empty. |
| AddonStore.Store.Upsert | internal/storage/driver/memory/entity_addon.go:34-57 | Keeps an existing mapping, stores the addon under its ID, and reports whether a mapping was there. |
| AddonStore.Store.Id | internal/storage/driver/memory/entity_addon.go:188-200 | The mapped ID, or which of the two errors. |
| AddonStore.Store.Get | internal/storage/driver/memory/entity_addon.go:60-83 | The addon behind the mapping; a mapping that leads nowhere within an existing namespace is deleted. |
| AddonStore.Store.GetByID | internal/storage/driver/memory/entity_addon.go:86-99 | The addon under the ID. |
| AddonStore.Store.FindAll | internal/storage/driver/memory/entity_addon.go:102-116 | Every addon of the namespace once. |
| AddonStore.Store.Remove | internal/storage/driver/memory/entity_addon.go:119-128 | Removes the addon behind the mapping and leaves the mapping. |
| AddonStore.Store.RemoveByID | internal/storage/driver/memory/entity_addon.go:131-166 | Removes the addon, and the namespace with its last one. |
| AddonStore.Store.RemoveAll | internal/storage/driver/memory/entity_addon.go:138-149 | Removing the listed addons one by one never fails and empties the namespace. |
| AddonTable.KeyInjective | internal/storage/driver/memory/entity_addon.go:180-186 | The joined key is injective when namespaces and versions contain no bar, whatever names contain. |
| AddonTable.BarBreaksKeys | internal/storage/driver/memory/entity_addon.go:180-186 | With a bar in either, two entries share a key. |
| AddonTable.KeysClashIff | internal/storage/driver/memory/entity_addon.go:180-186 | Two namespaces and versions can share a joined key, for some names, exactly when one namespace with its bar starts the other and one version with its bar ends the other. |
| AddonTable.IdentifiedIffRow | internal/storage/driver/memory/entity_addon.go:188-200 | A lookup by name and version ends at a stored addon exactly when the table has that row. |
| AddonTable.StoredIffRow | internal/storage/driver/memory/entity_addon.go:86-99 | A lookup by ID ends at a stored addon exactly when the table has one row with it. |
| AddonTable.ShrinkingKeepsConsistent | internal/storage/driver/memory/entity_addon.go:151-166 | Stale mappings do no harm. |
| AddonTable.GetKeepsConsistent | internal/storage/driver/memory/entity_addon.go:72-80 | Healing deletes no mapping that a stored addon needs. |
| AddonTable.RowsAgree | internal/storage/driver/memory/entity_addon.go:34-200 | One call: the table's answer, given which mappings there are, and the table's next contents. |
| AddonLedger.CallsAgree | internal/storage/driver/memory/entity_addon.go:34-200 | One call: the ledger's answer, the replaced flag included, and the store stands for the next ledger. |
| AddonLedger.RunsAgree | internal/storage/driver/memory/entity_addon.go:34-200 | Any sequence of calls from a store in order is answered as the ledger answers it. |
| AddonLedger.StoreIsOneTable | internal/storage/driver/memory/entity_addon.go:34-200 | Every run on a new store in which names and versions correspond one to one to IDs per namespace gets the answers of one simple table, and the flags of the entries marked beside it. |
| AddonLedger.OneTableIff | internal/storage/driver/memory/entity_addon.go:34-200 | For a set of insertions every run looks like one table if and only if they correspond one to one per namespace. |
| AddonLedger.GivesAway | internal/storage/driver/memory/entity_addon.go:44-56 | Any two insertions that do not correspond are told by one more call, a listing or a lookup. |
| AddonLedger.StaleIff | internal/storage/driver/memory/entity_addon.go:44-80 | An entry is marked without a row exactly when it was removed, and neither inserted nor healed by a lookup since. |
| AddonLedger.ReplacedIff | internal/storage/driver/memory/entity_addon.go:44-56 | After every run the flag of the next Upsert tells whether the addon is there if and only if its entry is not stale in that sense. |
| AddonLedger.ReplacedAfterRemoval | internal/storage/driver/memory/entity_addon.go:45-50 | It does go wrong: after a removal the next insertion reports a replacement. |
| AddonRecords.UpsertKeeps | internal/controller/common.go:357-361 | Upserting an entry puts its record into the table the controller sees. |
| AddonRecords.GetKeeps | internal/controller/common.go:395-398 | A listed pair is found exactly when it has a record, with the record's chart. |
| AddonRecords.RemoveKeeps | internal/controller/common.go:400-403 | Removing under the stored version removes that record and no other. |
| AddonRetrieval.ListedAddonsAreFound | internal/controller/common.go:184-218 | In every reachable state, with the two-map store in order, Get returns what a ready configuration lists under its name and version, and GetByID the same under its ID. |
| AddonsConfigurations.KeyInjective | pkg/apis/addons/v1alpha1/common.go:71-73 | Status keys are injective for slash-free versions. |
| AddonsConfigurations.Equals | pkg/apis/addons/v1alpha1/common.go:84-112 | Same phase and, position by position, same repository address, status, reason and message; addons are not compared. |
| AddonsConfigurations.IsReadyForReprocessing | internal/model.go:197-208 | Due when the generation moved on or a repository failed with a fetching error. |
| Collections.Collection.IsRepositoriesFetchingError | internal/controller/repository/repository_collection.go:83-90 | True exactly when some repository failed with a fetching error. |
| Collections.Collection.ReviseAddonDuplicationInRepository | internal/controller/repository/repository_collection.go:99-112 | In place: a complete entry fails exactly when an earlier complete one has its ID. |
| Collections.Collection.ReviseAddonDuplicationInStorage | internal/controller/repository/repository_collection.go:116-130 | In place: a complete entry fails exactly when some configuration of the list reports its pair as ready. |
| Collections.Collection.IsRepositoriesFailed | internal/controller/repository/repository_collection.go:67-81 | Marks repositories with failed addons, and answers whether any repository has failed. |
| Collections.Collection.ReadyAddons | internal/controller/repository/repository_collection.go:53-64 | The ready entries of all repositories in order. |
| Collections.FindFailedAddon | internal/controller/repository/repository.go:36-43 | True exactly when some entry is not ready. |
| Collections.FindExistingAddon | internal/controller/repository/repository_collection.go:122-130 | True exactly when some configuration of the list reports the pair as ready. |
| Collections.AlreadyRegistered | internal/controller/repository/repository_collection.go:122-152 | True exactly when some repository of one status lists the pair as ready. |
| Collections.IsListedReady | internal/controller/repository/repository_collection.go:132-152 | True exactly when one repository's list has the pair as ready. |
| CollectionReview.ReviewedEntry | internal/controller/repository/repository_collection.go:99-130 | What the two reviews make of each entry, stated without the scan. |
| CollectionReview.ReviewedShape | internal/controller/repository/repository_collection.go:67-81 | A repository fails through its own error or through an entry of its own; addresses, reasons and messages stay. |
| CollectionReview.FirstOfGroupSurvives | internal/controller/repository/repository_collection.go:99-112 | Of entries that share an ID the first survives unless its pair is registered elsewhere, and no later one does. |
| CollectionReview.ReadyIff | internal/controller/repository/repository_collection.go:67-152 | Nothing fails exactly when all repositories and entries loaded, IDs are pairwise distinct, and no pair is registered elsewhere. |
| ReconcilerEffects.ReadyVerdict | internal/controller/common.go:167-182 | What comes out ready lists ready addons only, and none that another configuration reports as ready. |
| ReconcilerEffects.VerdictBlockedVisible | internal/controller/common.go:481-494 | An addon blocked by another configuration sits in a failed repository, where the wake-up looks for it. |
| ReconcilerInvariant.OnAddOthers | internal/controller/common.go:150-227 | Of another configuration only the request counter and the generation change, by as much as it is in conflict. |
| ReconcilerInvariant.DroppedIsOwn | internal/controller/common.go:418-452 | What is deleted was listed by the configuration itself and is not listed by it now. |
| ReconcilerInvariant.OthersKeepAddon | internal/controller/common.go:184-209 | Saving and deleting leave the records of other ready configurations as they were. |
| ReconcilerInvariant.ReadyIsStored | internal/controller/common.go:196-208 | What a configuration reports when it comes out ready is in the store afterwards. |
| ReconcilerInvariant.OnAddKeeps | internal/controller/common.go:150-227 | Adding and updating keep the invariant, fetching errors included. |
| ReconcilerInvariant.SelfAfter | internal/controller/common.go:176-201 | The status a completed reconcile writes. |
| ReconcilerRuns.OnDeleteOthers | internal/controller/common.go:230-268 | Deleting a ready configuration asks everyone who is not ready exactly once and touches no record of a ready one. |
| ReconcilerRuns.OnDeleteKeeps | internal/controller/common.go:230-268 | Deleting keeps the invariant. |
| ReconcilerRuns.StepKeeps | internal/controller/common.go:85-132 | Every step of users and controller keeps the invariant. |
| ReconcilerRuns.RunKeeps | internal/controller/common.go:85-132 | The invariant holds in every reachable state. |
| ReconcilerRuns.ReadyConfigurationsDisjoint | internal/controller/common.go:150-227 | In every reachable state two ready configurations list different addons, runs through the unreviewed fetch-error path included. |
| ReconcilerRuns.ReadyAddonsRetrievable | internal/controller/common.go:184-218 | In every reachable state everything a ready configuration lists is ready and in the addon store. |
| ReconcilerRuns.OnlyOwnAddonsTouched | internal/controller/common.go:392-452 | No step about one configuration removes or changes a record that another ready one lists. |
| ReconcilerRuns.EndsReadyIff | internal/controller/common.go:167-182 | A reconcile that completes ends ready exactly when all loaded, IDs are distinct, and no other configuration reports one of the pairs as ready. |
| ReconcilerRuns.EndsWithOffendersFailed | internal/controller/common.go:496-513 | The written status marks exactly the entries that did not load, repeat an ID or are registered elsewhere. |
| ReconcilerCharts.RemoveKeepsChart | internal/controller/common.go:409-415 | Removing addons leaves the chart of every other addon, when none is shared. |
| ReconcilerCharts.StepCharts | internal/controller/common.go:379-416 | Every step keeps the charts of ready configurations. |
| ReconcilerCharts.ChartsRetrievable | internal/controller/common.go:379-416 | In every reachable state the chart of everything a ready configuration lists is in the chart store, when no two addons share one. |
| ReconcilerWakeUps.AskedIff | internal/controller/common.go:212-244 | Who is asked to reprocess in a step, exactly; who is not is left as it was, and who is is due. |
| ReconcilerWakeUps.AskedIffLoaded | internal/controller/common.go:150-227 | The same in terms of what was loaded: asked are those in conflict about a listed pair when something is wrong with the load or no loaded entry has its key. |
| ReconcilerWakeUps.BlockedIsAsked | internal/controller/common.go:467-494 | Whoever reports a pair as taken is due again when a ready configuration lets that pair go in a completed reconcile. |
| ReconcilerWakeUps.NoMissedWakeUp | internal/controller/common.go:212-244 | In every run: a configuration in conflict about a pair that a ready one lets go, or any that is not ready when a ready one is deleted, has its request counter raised and is due. |
| ReconcilerWakeUps.FetchErrorAsksNobody | internal/controller/common.go:153-165 | A ready configuration with a fetching error stops being ready, deletes nothing and asks nobody. |
| ReconcilerWakeUps.NotReadyAsksNobody | internal/controller/common.go:192-209 | A configuration that is not ready asks nobody, whatever it listed as ready and lets go. |
| ReconcilerWakeUps.ReadyIsNeverAsked | internal/controller/common.go:467-494 | A ready configuration is never asked: a reconcile of another one leaves it exactly as it is. |
| ReconcilerEffects.HitsCount | internal/controller/common.go:467-494 | A configuration is asked once for every deleted key it is in conflict about. |
| ReconcilerRetries.EndsReady | internal/controller/common.go:85-227 | A configuration that was never observed, is pending, has a new generation or reports a fetching error, and is not being deleted, ends ready when every address has an index, every entry loads and no ID or pair is taken; it then holds and stores exactly what was loaded. |
| ReconcilerRetries.LeftAlone | internal/model.go:193-208 | Without any of those four reasons a reconcile changes nothing. |
| ReconcilerRetries.FetchErrorReported | internal/controller/common.go:153-165 | A fetching error leaves the stores and the others alone; the status says failed and tells of every address with its status, reason and message, and it is written only if it did not say so before. |
| ReconcilerRetries.RepositoryReported | internal/controller/common.go:184-204 | When all addresses could be fetched the status tells of each with its reason and message, and a fetched one is failed exactly when one of its addons is. |
| ReconcilerRetries.EntryReported | internal/controller/common.go:167-204 | Every index entry is in the status, with the one reason that applies: not fetched, not loaded, registered elsewhere, repeating an ID, or none. |
| ReconcilerRetries.RetriedIff | internal/controller/common.go:97-129 | After a configuration was processed there is a reason to process it again if and only if an address could not be fetched. |
| ReconcilerRetries.HandledOnce | internal/controller/common.go:97-129 | Handling it again without such an error changes nothing, whatever the addresses say then. |
| ReconcilerRetries.PursuedEndsReady | internal/controller/common.go:85-227 | In every run, from the moment there is a reason to process a configuration, the first time it is handled with all well it ends ready with what was loaded, whatever others and users but its deletion do in between. |
| ReconcilerRetries.FetchErrorIsRetried | internal/model.go:197-208 | In every run a fetching error is not final: it is reported, and the next time all is well the configuration ends ready. |
| ReconcilerRetries.NewsArePursued | internal/model.go:193-208 | In every run a configuration has a reason to be processed when it is new or was changed. |
| ReconcilerStranded.FetchErrorStrands | internal/controller/common.go:153-165 | A run, for all names, addresses and addons, after a fetching error: a configuration is blocked over an addon nobody registers any more and is not due. |
| ReconcilerStranded.FailedOwnerDropsAndStrands | internal/controller/repository/repository_collection.go:122-130 | A run to the same end in which the owner had failed over another address, which did not stop it from blocking, and drops the addon. |
| ReconcilerStranded.FailedOwnerDeletedStrands | internal/controller/common.go:230-268 | A run to the same end in which such an owner is deleted. |
| ReconcilerStranded.BlockedIsDueWhenReleased | internal/controller/common.go:184-244 | When a ready configuration that can fetch, or is deleted, releases a pair, whoever is blocked over it is due. |
| ReconcilerCauses.StrandedHasCause | internal/controller/common.go:150-268 | In every run: whoever is blocked over a pair nobody registers and is not due was left behind by an earlier reconcile of another configuration, not ready or with a fetching error, that released the pair. |
| ReconcilerCauses.RunUntouched | internal/controller/common.go:135-147 | In every reachable state a configuration without the finalizer reports nothing, so deleting it releases nothing. |
| ReconcilerCauses.EvictedIff | internal/controller/common.go:150-194 | A ready configuration reconciled with nothing wrong of its own loses its readiness exactly when another one that is not ready reports one of its pairs as ready; then all its addons leave the store. |
| ReconcilerCauses.FetchErrorEvicts | internal/controller/common.go:153-165 | A run, for all names, addresses and addons, in which the unreviewed status of a fetching error does so. |
| ReconcilerWakeUps.StoreAfter | internal/controller/common.go:184-209 | Exactly which pairs are in the store after a completed reconcile. |
| ReconcilerWakeUps.DroppedExactly | internal/controller/common.go:433-452 | With slash-free versions the orphans are exactly what was listed and is not any more. |
| ReconcilerWakeUps.DeletedIsCleared | internal/controller/common.go:230-262 | Every addon that a deleted ready configuration listed leaves the store, and its chart with it. |
| ReconcilerWakeUps.LetGoIsCleared | internal/controller/common.go:184-209 | The same for everything a ready configuration lets go in a completed reconcile. |
| Controller.OthersRegister | internal/controller/common.go:515-529 | The list of the other configurations registers exactly the pairs registered elsewhere. |
| Controller.LoadRepositories | internal/controller/common.go:271-305 | One repository per address, failed or with its entries, in order. |
| Controller.CreateAddons | internal/controller/common.go:307-345 | One entry per index entry, ready or failed with the right reason. |
| Controller.StatusSnapshot | internal/controller/common.go:496-513 | The status lists every repository and entry as it stands. |
| Controller.IsConfigurationInConflict | internal/controller/common.go:481-494 | True exactly when a status that is not ready lists the key in a repository that is not ready. |
| Controller.KeysToStay | internal/controller/common.go:434-439 | The keys of everything the new status lists. |
| Controller.Common.SaveAddons | internal/controller/common.go:347-390 | Every ready entry's record and chart are in the stores afterwards, later entries winning; the rest is unchanged. |
| Controller.Common.RemoveAddon | internal/controller/common.go:392-416 | The record and its chart are gone, nothing else; a pair that is not there changes nothing. |
| Controller.Common.DeletePreviousAddons | internal/controller/common.go:419-430 | Everything listed is removed, and its keys are returned in order. |
| Controller.Common.DeleteOrphanAddons | internal/controller/common.go:433-452 | Exactly the listed pairs whose keys do not stay are removed, and their keys are returned. |
| Controller.Common.ListExistingConfigurations | internal/controller/common.go:515-529 | Every configuration but the given one, once each. |
| Controller.Common.ReprocessRequest | internal/controller/common_client.go:143-164 | Raises one request counter and its generation by one. |
| Controller.Common.ReprocessConfigurationsInConflict | internal/controller/common.go:467-479 | Every other configuration is asked once for each deleted key it is in conflict about. |
| Controller.Common.ReprocessNotReady | internal/controller/common.go:237-244 | Every other configuration that is not ready is asked once. |
| Controller.Common.UpdateAddonStatus | internal/controller/common.go:545-550 | Writes the status with the generation it belongs to. |
| Controller.Common.Review | internal/controller/common.go:167-182 | The three passes over the collection amount to the verdict on it. |
| Controller.Common.OnAdd | internal/controller/common.go:150-227 | The code takes the world exactly where the step system says, on the two-map store. |
| Controller.Common.OnDelete | internal/controller/common.go:230-268 | Likewise for deletion. |
| Controller.Common.PrepareForProcessing | internal/controller/common.go:135-147 | Finalizer set and status pending for the current generation. |
| Controller.Common.Reconcile | internal/controller/common.go:85-132 | A whole reconcile of the code is a step of the system, and leaves everything in order for the next. |
| ControllerRuns.Act | internal/controller/common.go:85-132 | One step of a user or the controller, carried out by the code, is the step of the system. |
| ControllerRuns.Drive | internal/controller/common.go:85-132 | The code, driven by the actions of any run from a new store, ends in the world the run ends in, with the two-map store in order. |
| ControllerRuns.LookUpListed | internal/controller/common.go:184-218 | After any run of the code the store's Get and GetByID return the addon a ready configuration lists. |

## Left out

- The HTTP server, its middleware and data transfer objects: plumbing without state of its own.
- The Bind service and its worker: a repeated bind restarts a worker on a finished operation, so no clean invariant holds over runs; only the bind state queries are modelled.
- Helm, Kubernetes, etcd and documentation clients: their results are choices of the actions or arguments; broker synchronisation and documentation upload change nothing that is modelled.
- Gob and JSON encodings: the identity on the modelled fields; deepCopy's round trip through JSON is a copy of maps and scalars.
- The addon loader, archive and repository getters and URL templating: their results are the outcomes given to a reconcile. That an addon has one chart, which all its plans refer to, is taken from internal/addon/form.go:140-190.
- Migration, health probes, webhooks, configuration, logging and generated code: thin or generated.
- The legacy parameter-hash migration: it writes a record outside any operation; hashes are assumed empty.
- Concurrent use of the etcd operation store: its check and its write are separate calls; the comparison of the drivers is sequential.
- The etcd addon store: its listing scans a prefix without a closing separator; only the memory driver is modelled.
- MergeInPlace.Heap.MergeValues: does not model a destination that shares maps with the source or reaches one of its own maps twice; there the result is not the merge, and the source only merges into a fresh copy.
- MergeInPlace.Heap.MergeKey: likewise.
- Controller.Common.Reconcile: does not model loaded addons whose IDs and names with versions do not correspond one to one (AddonLedger.OneTableIff says what the store does then), or versions whose text is not canonical.
- Controller.Common.OnAdd: likewise.
- Controller.Common.SaveAddons: likewise.
- ReconcilerRuns.ReadyAddonsRetrievable: speaks of the table of records; AddonRetrieval.ListedAddonsAreFound says what the store answers.
- LifecycleCrossing.UncrossedRunIsSole: says nothing about an instance that was removed once, where any number of Creates can succeed.
- LifecycleRepeat.UncrossedRunKeepsParameters: likewise.
- AddonTable.RowsAgree: leaves open which mappings there are; AddonLedger settles it.
- Nil arguments of the stores' insert calls: values cannot be nil here.
- Data races on objects the memory driver hands out by pointer: the scans of operation lists read one operation per step and so see them change, but the worker's assignment to the shared record shortly before its upsert is modelled as part of the upsert.
- The memory instance store: a map in the state of the lifecycle, with one step per call; its listing, which takes no lock, is one step.
- Provision, Deprovision and their workers as methods: their storage calls interleave, so each is a chain of step functions instead; starting a worker is part of the storage step before it.
- Entry and repository pointers in a collection: positions in sequences, replaced in place; the texts of conflict messages are not modelled.
- Storage and API errors during a reconcile, stale caches, finalizers of others: a reconcile runs to its end on current data and the only finalizer is its own.
- Overflow of the 64-bit request counter and generation: unbounded here.
- The read lock under which the memory addon store heals itself: calls are sequential.
- The chart store's contents: a set of chart names and versions.
