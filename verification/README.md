# Pacto operator: a verified model

The operator reconciles declared contracts (`Pacto` resources) against the state of a Kubernetes cluster. This project
models its decision logic in Dafny and proves what that logic keeps, over single calls, over all interleavings of its
steps, and over whole runs. `dafny verify dfyconfig.toml` checks everything.

The Kubernetes API is a map from keys to objects whose calls may fail, the registry a function that may change from
call to call, the clock a parameter. The modules follow the program:

- `WatchLoop` and `Observer`: which Pactos an object change re-queues, which objects an observation reads, and a state
  machine of informer events, queue, workers and status writes in which the two must agree.
- `RevisionLedger` and `RevisionSync`: the Get, Create and status-update protocol for contract revisions under
  concurrency, stale reads and crashes, and the loop that syncs it with the tags of a repository.
- `LoaderCache` and `OciRef`: the two caches with a time to live, shared by concurrent callers, and their keys.
- `PactoStatus`, `Reconcile`, `StatusProperties`, `StatusContents`, `ReadinessRun` and `Validator`: the pipeline that
  mutates one status over several exit paths, the pure function it refines, what each contract status means, what every
  field of the status says, and readiness events.
- `Overrides`: configuration overrides on heap objects the loader's cache shares.
- `ImageRef`, `Credentials`, `Base64`, `GoStrings`: reference and credential arithmetic on strings.
- `Dashboard`: the lifecycle of the dashboard's resources under failing calls.
- `PactoTypes`, `Wrappers`: the shared types.

Where the repository's code and its documentation disagree, the model follows the code:

- An unmet readiness gate turns Compliant into Warning, although the comment in `internal/controller/readiness.go` and
  the repository's README say readiness never changes the contract status. `StatusProperties.ReadinessOnlyGates` gives
  the exact condition.
- Failed checks of error severity give Warning, not NonCompliant, unless the service or the workload is missing; and the
  image check has error severity. `StatusProperties.DocumentedStatus` says exactly when code and documented rule agree.
- Status writes announce their own Pacto: every write stamps the time, and the watch on Pactos filters nothing. Left alone,
  the loop need not come to rest; `WatchLoop.GoesOnWhileWritesChange` says exactly when it does not.
- A force-push report cuts twelve characters from digests that may be shorter; the sync then panics.
- Names are cut at 253 characters from the end, where the hash is.
- An image without tag does not match one that carries both tag and digest.
- The mapper answers nothing when List fails; only the next reconciliation of the Pacto repairs that.
- Merging registry credentials depends on map order when a source spells a host twice; repeated dashboard passes may
  then differ. `Dashboard.EnabledIsIdempotent` gives the exact condition.
- Syncing twice can change the status of a revision a crash left blank, depending on List order.

## Model

| member | source | states |
|---|---|---|
| WatchLoop.NeverStaleUnnoticed | internal/controller/event_handler.go:52-78 | In every reachable state, a targeted Pacto is due for another reconciliation, or everything its current reconciliation has read so far, or persisted last, agrees with the cluster as it is now: the snapshot is the current one, or there is none because the contract was rejected, or a read failed, for the very specification it has now. Cluster and Pacto changes may fall anywhere, also between the service and the workload read, and events of different kinds arrive in any order; beside that only a List that failed since the Pacto was last picked excuses a stale snapshot. |
| WatchLoop.IdleIsCurrent | internal/observer/runtime.go:52-101 | While List succeeds, the last snapshot of every idle targeted Pacto is the observation of the current cluster; there is none only if its own last persisted reconciliation rejected the contract or failed to read, for the specification it still has. A reference that became targeted is never left behind. |
| WatchLoop.UnhinderedIdleIsCurrent | internal/observer/runtime.go:52-101 | If moreover its contract was never rejected and its reads never failed, the last snapshot is the observation of the current cluster, full stop. |
| WatchLoop.MapperCoversObserver | internal/controller/event_handler.go:61-76 | Every object an observation of a Pacto reads is of a watched kind and is mapped back to that Pacto: mapper, observer and watches agree on kinds, names, defaults and namespace. |
| WatchLoop.MapperAnswers | internal/controller/event_handler.go:54-76 | Whatever order List returns the namespace in, the mapper re-queues exactly the Pactos of that namespace whose service name, or whose workload reference, is the object's name. |
| WatchLoop.MapObjectToPactos | internal/controller/event_handler.go:52-78 | The loop with its continue selects, in list order, exactly the listed Pactos whose service name or workload reference is the name; a failed List selects none. |
| WatchLoop.ChangesAnnounced | internal/controller/pacto_controller.go:1112-1124 | Changes of the six watched kinds are announced, others are not. |
| WatchLoop.MapSecretToPactos | internal/controller/event_handler.go:33-49 | The Pactos that name the secret as their pull secret, in list order; a failed List selects none. |
| WatchLoop.FailedListStrands | internal/controller/event_handler.go:55-57 | Exact cost of a failed List, for any state: an idle current Pacto stays idle, and its snapshot goes stale if and only if the changed object is its service and existence or ports differ, or its workload and existence, pod or the settings its kind is read for differ. |
| WatchLoop.TimedRequeueRepairs | internal/controller/pacto_controller.go:812-817 | From any state of the loop whatsoever: once a worker that may hold the Pacto is through, a timed requeue and an undisturbed reconciliation persist the current snapshot. |
| WatchLoop.FetchDoes | internal/controller/pacto_controller.go:75-82 | After an error the Pacto comes again, a deleted one is dropped, and one without service name and workload reference reads nothing. |
| WatchLoop.FailedReadsDo | internal/controller/pacto_controller.go:195-215 | A rejected contract, or a failed read where there is something to read, ends in a status without snapshot. |
| WatchLoop.FinishDoes | internal/controller/pacto_controller.go:321-341 | A refused status write persists nothing and brings the Pacto back; an accepted one persists the outcome, and is announced exactly when it changed something. |
| WatchLoop.CalmRunsEnd | internal/controller/pacto_controller.go:1112-1124 | Left alone, without changes or failures, the loop takes at most as many effective steps as its measure, and seven more for each status write that changes something. |
| WatchLoop.GoesOnWhileWritesChange | internal/controller/pacto_controller.go:1112-1124 | Exactly when it goes on without bound: runs without changes or failures are unboundedly long if and only if they hold unboundedly many changing status writes. |
| WatchLoop.LoopIsEndless | internal/controller/pacto_controller.go:1112-1124 | Failing input: an idle targeted Pacto with a current snapshot, of which only its own last write is still announced, is reconciled and comes back to exactly the same state. |
| WatchLoop.NeverRestsFromStart | internal/controller/pacto_controller.go:1112-1124 | From the very start, on any cluster and with any targeted Pacto, there are such runs of every length. |
| WatchLoop.RestIsCurrent | internal/controller/pacto_controller.go:1112-1124 | When no internal step is left to take and no List has failed, every targeted Pacto's last snapshot is current, but for a rejection or failed read in its own last persisted reconciliation, and without exception if there never was one. |
| Observer.Observe | internal/observer/runtime.go:52-82 | The snapshot tells of the service as it stood at the first read and of the workload as it stood at the second, each read at exactly its kind, namespace and name: the five kinds by their own names, any other name and a missing reference as a Deployment. The observation fails exactly when a read that is made fails other than by absence. |
| Observer.ObservationTells | internal/observer/runtime.go:52-208 | What such a snapshot tells, field by field, for every target: existence, ports, grace period, images in order, the first container's readiness delay or else its liveness delay, claims, empty directories, and strategy or pod management by kind; nothing of a workload that is not there. |
| Observer.SnapshotShows | internal/observer/runtime.go:52-208 | Two observations of a target are equal if and only if they show the same of the service (existence, ports) and of the workload (existence, grace period, images, probe delay, claims, empty directories, and strategy or pod management by kind). |
| Observer.RuntimeSnapshot.ObserveWorkload | internal/observer/runtime.go:84-174 | Per-kind readers: strategy of Deployments, pod management and claim templates of StatefulSets, the pod template of all; absence leaves the snapshot alone. |
| Observer.RuntimeSnapshot.ExtractPodTemplateInfo | internal/observer/runtime.go:176-208 | Images in order, the first container's readiness delay or else its liveness delay, and whether any volume is a claim or an empty directory. |
| RevisionLedger.LedgerIsAppendOnly | internal/controller/pacto_controller.go:923-1013 | Over every run of Get, Create and status-update steps by several writers, with stale reads, races, failed calls and crashes anywhere: no revision disappears, no specification changes, and hash and creation time go together from unset to set at most once and never change after. |
| RevisionLedger.ReachableLedger | internal/controller/pacto_controller.go:976-1008 | In every reachable ledger hash, creation time and resolved mark are all set or all unset, the specification records a call that computed this very name (Pacto, service, version, source by precedence), and the hash is that of such a call. |
| RevisionLedger.SpecAndHashAgree | internal/controller/pacto_controller.go:926-938 | When no two contents in play share a name, the specification of a stamped revision records a call whose content has its hash, even if one writer created and another stamped it. |
| RevisionLedger.NameShowsHash | internal/controller/pacto_controller.go:926-938 | With names kept whole, a stamped revision's name ends in the first seven characters of its hash. |
| RevisionLedger.NameParts | internal/controller/pacto_controller.go:926-938 | A name is the Pacto, the version with dashes for dots, and seven characters of the hash, cut at 253 characters. |
| RevisionLedger.WholeNames | internal/controller/pacto_controller.go:929-938 | For one Pacto, two whole names are equal if and only if the versions are equal with dots read as dashes and the short hashes are equal. |
| RevisionLedger.NamesTellPactosApart | internal/controller/pacto_controller.go:929-938 | One content has different whole names for different Pactos. |
| RevisionLedger.NamesByKeptHash | internal/controller/pacto_controller.go:935-938 | For all lengths: one Pacto and version give two hashes the same name if and only if they agree in the characters there is room for, from seven down to none. |
| RevisionLedger.TruncationLosesHash | internal/controller/pacto_controller.go:936-938 | The end of that scale: once Pacto name and version fill 253 characters, contents of different hashes share one name. |
| RevisionLedger.DotsAreDashes | internal/controller/pacto_controller.go:934-935 | Versions 1.0 and 1-0 share names. |
| RevisionLedger.RevisionClient.EnsureRevision | internal/controller/pacto_controller.go:923-1013 | The store after the call, for every combination of failing calls; an error exactly when Get fails, or the name is new and Create fails; otherwise the revision exists, and a new one records the call and is stamped with hash and time unless the status update fails. |
| RevisionLedger.CallCreates | internal/controller/pacto_controller.go:960-1007 | A revision that is not found is added, and nothing else changes: its source is the resolved reference with its digest, failing that the declared one, and inline exactly when there is neither; version unknown when there is none; resolved, hash and time set together unless the status update fails. |
| RevisionLedger.CallBackfills | internal/controller/pacto_controller.go:940-955 | A revision that is found keeps its specification; where hash or time is missing both are set, a time already there is kept, and anything else stays. |
| RevisionLedger.RevisionClient.Backfill | internal/controller/pacto_controller.go:943-955 | An existing revision gets hash and creation time exactly when one of them is missing and the update succeeds, and keeps a creation time it has. |
| RevisionLedger.UndisturbedCall | internal/controller/pacto_controller.go:923-1013 | The one-call method is the undisturbed run of the concurrent protocol. |
| RevisionSync.SyncCovers | internal/controller/pacto_controller.go:1015-1094 | After an error-free sync, with stored and loaded digests of at least twelve characters that determine what is loaded, every listed tag's current content has its revision, whichever revision List puts first, and everything recorded before, force-pushed contents included, is still there. |
| RevisionSync.CoveredContent | internal/controller/pacto_controller.go:1015-1094 | When names tell the contents in play apart, the revision found under the name of a tag's content is of that content: its specification has that version and service, and its hash, once set, is that content's. |
| RevisionSync.TagCoverage | internal/controller/pacto_controller.go:1042-1073 | Exactly when an error-free turn that does not panic leaves a tag's current content without a revision: it had none, and the revision that came first carries no digest. |
| RevisionSync.SyncGrows | internal/controller/pacto_controller.go:1023-1091 | Whatever fails, and even if it panics, a sync only adds revisions or stamps blank ones. |
| RevisionSync.SyncTwice | internal/controller/pacto_controller.go:1023-1091 | With the registry unchanged, a second sync in any List order and with any failures, of loads too, changes no name and no specification, and changes nothing at all if and only if none of its turns meets a blank revision. Labels need not equal tags. |
| RevisionSync.SyncIsIdempotent | internal/controller/pacto_controller.go:1023-1091 | If no revision was left blank beforehand, two syncs are one. |
| RevisionSync.ListOrderCanShow | internal/controller/pacto_controller.go:1044-1062 | Counterexample to unconditional idempotence: a tag has two revisions and its current one was left blank by a crash; with that one first a turn does nothing, with the older one first the same turn stamps it. |
| RevisionSync.SyncAllRevisions | internal/controller/pacto_controller.go:1015-1094 | The loop over tags: List failures and load failures skip the tag, an unlisted repository changes nothing, a force-push whose stored or new digest is shorter than twelve characters panics. |
| RevisionSync.NewTagIsEnsured | internal/controller/pacto_controller.go:1079-1090 | A tag no revision of the Pacto carries is always handed to ensureRevision, with what its own tagged reference loads. |
| RevisionSync.KnownTagIsCompared | internal/controller/pacto_controller.go:1042-1077 | A tag some revision carries is compared with the digest of one such revision: empty or equal ends the turn; different panics if either digest has fewer than twelve characters, and else the load is handed to ensureRevision. |
| RevisionSync.UnansweredTagIsSkipped | internal/controller/pacto_controller.go:1030-1040 | Without an answer from List or the registry a turn does nothing. |
| RevisionSync.SoundNeverPanics | internal/controller/pacto_controller.go:1063-1068 | With digests of at least twelve characters no turn panics. |
| RevisionSync.MissingDigestPanics | internal/controller/pacto_controller.go:1068-1068 | A registry that gives no digest for a tag stored with one makes the turn panic. |
| RevisionSync.ReachableProvenance | internal/controller/pacto_controller.go:962-988 | Every ledger the concurrent protocol reaches from loads in which a digest determines the content meets what the sync theorems ask of it. |
| LoaderCache.CachedAnswersAreFresh | internal/loader/contract.go:71-109 | Under every interleaving of checks, unlocked loads and stores, an answer served from the cache repeats a store under its key that is less than the time to live old, and no newer store under that key had happened. |
| LoaderCache.FreshIsServed | internal/loader/contract.go:80-95 | The converse: in every reachable state a check is answered at once exactly while the last store under its key is younger than the time to live, with that very result; otherwise its caller loads. Eviction never drops what could still be served. |
| LoaderCache.UnstoredIsLoaded | internal/loader/contract.go:80-95 | A key that was never stored is loaded. |
| LoaderCache.LoadsAndTagsAreServed | internal/loader/contract.go:57-66 | The instance for both caches: thirty seconds for loads, five minutes for tag lists. |
| LoaderCache.LoadAnswersComeFromTheirSource | internal/loader/contract.go:71-118 | A cached load answer repeats an uncached load of the same source stored less than 30 seconds before, provided its inline contract shares its truncated hash with no other loaded so far, and no reference normalises to nothing. |
| LoaderCache.TagAnswersComeFromTheirRepository | internal/loader/contract.go:124-164 | A cached tag list is that of the repository asked for, less than five minutes old. |
| LoaderCache.UnchangedSourceIsTransparent | internal/loader/contract.go:71-118 | While a source gives the same result, no caller can tell the cache from the source, under the same proviso. |
| LoaderCache.BypassIsInvisible | internal/loader/contract.go:72-75 | Calls with their own credentials neither read nor write the cache: without them every other call gets the same answer and the final state is the same. |
| LoaderCache.EvictionIsUnobservable | internal/loader/contract.go:97-105 | No history of calls in monotone time distinguishes the evicting cache from one that keeps every entry. |
| LoaderCache.UndisturbedCall | internal/loader/contract.go:77-108 | One undisturbed call of the concurrent system is the method Load: same cache, same answer. |
| LoaderCache.EvictExpired | internal/loader/contract.go:100-105 | The cleanup loop drops exactly the entries past their expiry, in any map order. |
| LoaderCache.Loader.Load | internal/loader/contract.go:71-109 | Hit, miss and override paths; what is fetched is the source as declared (OciRef.SourceIsAsDeclared); after a store at most 100 entries remain or none is past its expiry, and a cache with room loses nothing. |
| LoaderCache.Loader.ListTags | internal/loader/contract.go:124-164 | The same for tag lists, with the empty reference touching nothing. |
| OciRef.CacheKeyAgrees | internal/loader/contract.go:180-187 | Equal load keys mean the same uncached source, if and only if both calls or neither name a reference. |
| OciRef.SourceIsAsDeclared | internal/loader/contract.go:111-118 | An inline contract is read as it is; a reference without escapes is pulled as written, tag and digest included, with the scheme or without; with neither there is no source. |
| OciRef.SourceAgrees | internal/loader/contract.go:180-197 | Conversely, equal sources have equal keys if and only if, normalised, both references or neither still carry a scheme. |
| OciRef.EscapedIsPulledUnescaped | internal/loader/contract.go:188-197 | A reference escaped in any way, in capitals or not, is pulled as its unescaped text. |
| OciRef.SpoiltIsPulledAsItIs | internal/loader/contract.go:188-197 | A reference with a malformed escape is taken as it is. |
| OciRef.EmptySchemeSharesKey | internal/loader/contract.go:111-118 | The one exception: no reference at all and a bare scheme share a key though only one of them is loaded. |
| OciRef.TagCacheKeyAgrees | internal/loader/contract.go:166-178 | Tag-list keys are equal if and only if the registry is asked about the same repository and both references still carry a scheme or neither does. |
| OciRef.RepositoryFormsShareKey | internal/loader/contract.go:166-178 | The untagged, tagged, digest and tagged-digest forms of a repository share exactly its one key. |
| OciRef.ListTagsForms | internal/loader/oci.go:88-98 | For the same forms, with the scheme or without, the registry is asked for the tags of exactly that repository. |
| OciRef.TaggedRefStaysInRepository | internal/controller/pacto_controller.go:1024-1028 | For bases without escapes and digest, each tag is pulled from the repository whose tags were listed, if and only if the base does not repeat its scheme three times. |
| OciRef.TaggedRefForms | internal/controller/pacto_controller.go:1024-1028 | For plain bases, tagged or not, with the scheme or without, the reference built for a tag is the repository with that tag. |
| Reconcile.PactoReconciler.Reconcile | internal/controller/pacto_controller.go:72-253 | On every exit path the persisted status is a function of specification, load result, overrides, observation, probes and clock, and of the previous status only through its revision; its validation is valid if and only if the contract is acceptable (Reconcile.PhaseMeans); the events likewise; the requeue interval is the specified one if positive, else 300 seconds; nothing else is modified, so contracts shared by the loader's cache stay as they were. |
| Reconcile.PhaseMeans | internal/controller/pacto_controller.go:93-142 | Accepted if and only if the pull secret is unnamed or readable, the load succeeded, every override names a configuration of the loaded contract, and validation of the overridden contract finds no error; the accepted contract is the loaded one with overridden values; otherwise issues and resolution policy are those of the first condition that fails. |
| StatusContents.RejectedSays | internal/controller/pacto_controller.go:282-310 | Everything a rejected contract leaves in the status: NonCompliant, one failed check, its issues and policy, and nothing else but the revision. |
| StatusContents.AcceptedSays | internal/controller/pacto_controller.go:144-171 | Whatever its target, an accepted contract keeps service, interfaces and runtime as loaded; version, resolved reference, warnings, readiness and policy are its own. |
| StatusContents.ConfigurationsSay | internal/controller/pacto_controller.go:154-159 | Every configuration is listed, with the keys of the last override of its name, or none. |
| StatusContents.ContractAndGateSay | internal/controller/readiness.go:35-71 | On every accepted path: the condition of the contract, and of the gate exactly when readiness is evaluated, with its reason. |
| StatusContents.ReferenceSays | internal/controller/pacto_controller.go:179-189 | A contract without target: Reference, one passed check, nothing about a target. |
| StatusContents.UnobservedSays | internal/controller/pacto_controller.go:195-215 | A target that cannot be read: Unknown, one failed check, a condition that says so. |
| StatusContents.ObservedSays | internal/controller/pacto_controller.go:217-250 | An observed target: service and workload by name, kind and existence, ports when some are declared or served, the runtime of an existing workload, and what the endpoints of an existing service answered. |
| StatusContents.FindingsSay | internal/controller/pacto_controller.go:231-247 | A condition stands in the status if and only if what it is about is declared and looked at. |
| StatusContents.EventsSay | internal/controller/pacto_controller.go:299-341 | Exactly which events a reconciliation records, by its inputs, including those that precede a failing write. |
| StatusProperties.OnlyRevisionSurvives | internal/controller/pacto_controller.go:255-278 | Runs from different previous statuses persist the same status up to the revision, and identical statuses if and only if the revisions agree or the contract was accepted and a revision ensured. |
| StatusProperties.EveryWriteStamps | internal/controller/pacto_controller.go:291-321 | Every persisted status carries its clock reading, on every exit path, so a write changes something unless it repeats a status written at the same reading. |
| StatusProperties.RuntimeStatusConserves | internal/controller/pacto_controller.go:535-678 | On the runtime path condition types are pairwise distinct, total equals passed plus failed equals the number of collected checks, there is one condition per check plus one exactly when readiness is declared, and failed counts the false conditions other than readiness. |
| StatusProperties.ReadinessOnlyGates | internal/controller/readiness.go:26-35 | Exactly when readiness does change the contract status, contrary to its documentation: on the runtime path, when the gate is unmet while the target is aligned and its endpoints answer; Compliant then becomes Warning. Summaries never change. |
| StatusProperties.ReadinessChangesStatus | internal/controller/pacto_controller.go:778-800 | Concrete input for which the documented independence fails. |
| StatusProperties.CompliantMeans | internal/controller/pacto_controller.go:162-253 | Compliant if and only if the contract is acceptable, targets something, was observed, is aligned with the cluster, its declared endpoints answer, and no readiness gate is unmet. |
| StatusProperties.NonCompliantMeans | internal/controller/pacto_controller.go:778-800 | NonCompliant if and only if the contract is not acceptable or the target service or workload is missing. |
| StatusProperties.UndecidedMeans | internal/controller/pacto_controller.go:171-210 | Reference and Unknown mean exactly: acceptable without target, and acceptable with a target that could not be observed. |
| StatusProperties.FailuresNeverHelp | internal/validator/validator.go:191-213 | More failed checks never improve the status, with or without an unmet gate. |
| StatusProperties.ErrorSeverityOnlyWarns | internal/validator/validator.go:191-213 | Any one failed check that is not about service or workload gives Warning, whatever its severity. |
| StatusProperties.DocumentedStatus | internal/controller/pacto_controller.go:778-800 | The contract status agrees with the documented severity rule, the gate apart, if and only if there is no mismatch of error severity (kind, state or image) while the target exists. |
| StatusProperties.WrongKindOnlyWarns | internal/validator/runtime_checks.go:25-64 | Failing input: a job contract over a Deployment fails a check of error severity and gets Warning. |
| StatusProperties.EndpointsPass | internal/controller/pacto_controller.go:594-767 | All endpoint checks pass if and only if each declared endpoint's interface exists, has a port, and answers with the status, and for metrics the body, that is asked for. |
| Reconcile.FinalStatusIsGatedVerdict | internal/controller/pacto_controller.go:778-800 | The fold over conditions equals the verdict on all collected checks, but for the readiness gate. |
| Reconcile.PactoReconciler.ReconcileRuntime | internal/controller/pacto_controller.go:212-250 | The mutating steps from validation to the final fold add up to one update of the status. |
| Reconcile.PactoReconciler.ResolveContract | internal/controller/pacto_controller.go:97-149 | Which of credentials, load, overrides and validation rejects, with its policy and issues, or the effective contract and its overridden keys. |
| Reconcile.PactoReconciler.FailReconciliation | internal/controller/pacto_controller.go:282-310 | The rejected status, its event only after a successful write, the requeue or the error. |
| Reconcile.PactoReconciler.FinishReconciliation | internal/controller/pacto_controller.go:314-341 | The stamp, the write, and the complaint event only for statuses other than Compliant and Reference. |
| Reconcile.PactoReconciler.ReconcileReadiness | internal/controller/readiness.go:35-54 | Assessment, condition, and an event exactly on a change of the gate. |
| PactoStatus.Pacto.ApplyValidationResult | internal/controller/pacto_controller.go:535-592 | Resources, ports, one condition per check, and counts that start with the passed contract check. |
| PactoStatus.Pacto.ProbeEndpoints | internal/controller/pacto_controller.go:596-659 | Each declared endpoint is looked up by name, last port winning, probed and counted; endpoints are recorded only if one was probed. |
| PactoStatus.LastPortDecides | internal/controller/pacto_controller.go:601-609 | Of several interfaces of one name the last that has a port decides. |
| PactoStatus.ProbesCover | internal/controller/pacto_controller.go:615-658 | An endpoint is checked if and only if it is declared, and has a result if and only if its interface has a port. |
| PactoStatus.ProbeReasons | internal/controller/pacto_controller.go:692-775 | What each endpoint check says: interface missing, no port, unreachable, wrong status by the rule of its kind, empty, or fine; and the address that was asked. |
| PactoStatus.Pacto.ApplyCheck | internal/controller/pacto_controller.go:662-678 | One condition set and one check counted, from an absent summary too. |
| PactoStatus.ConditionIsSet | internal/controller/pacto_controller.go:802-810 | Setting a condition replaces that of its type, keeping the transition time of an unchanged status, and leaves the others. |
| PactoStatus.Pacto.ComputeFinalContractStatus | internal/controller/pacto_controller.go:778-800 | The loop's two flags give the verdict over all conditions, readiness included. |
| PactoStatus.SummaryConserves | internal/controller/pacto_controller.go:576-591 | Total is passed plus failed and the number of checks, failed the number of failures. |
| ReadinessRun.EventsBalance | internal/controller/readiness.go:35-54 | Over any run of reconciliations, gate-unmet events minus recoveries, minus silent clears of an unmet gate, minus the net events of failed writes, equal the change in whether the persisted gate is unmet. |
| ReadinessRun.EventsAlternate | internal/controller/pacto_controller.go:84-91 | Without silent clears and failed writes the gate events strictly alternate, starting with a recovery when the gate was unmet. |
| ReadinessRun.UnmetWhen | internal/controller/readiness.go:59-71 | The persisted gate is unmet if and only if the contract was acceptable and its readiness evaluated as not passing, on every path. |
| Validator.ValidationPasses | internal/validator/validator.go:46-91 | All checks of a validation pass if and only if contract and workload are aligned, property by property. |
| Validator.ValidationErrors | internal/validator/runtime_checks.go:25-247 | A validation fails with error severity if and only if the workload exists and is of the wrong kind, its state does not fit, or its first image does not match. |
| Validator.UpgradeReason | internal/validator/runtime_checks.go:129-176 | An upgrade strategy that cannot be seen passes as skipped; one that can be seen matches or does not. |
| Validator.KindReasons | internal/validator/runtime_checks.go:25-127 | Workload type and state: a missing volume is told from a wrong kind. |
| Validator.ValueReasons | internal/validator/runtime_checks.go:178-281 | Grace period, image and probe delay: missing exactly when nothing was observed, else match or mismatch. |
| Validator.Validate | internal/validator/validator.go:46-91 | The appended checks and ports, in order, for every combination of service, workload and declared sections. |
| Validator.ValidationCovers | internal/validator/validator.go:46-91 | Each check is made if and only if its subject is declared and there to be looked at. |
| Validator.CheckPorts | internal/validator/validator.go:127-189 | Passed exactly when every declared port is served; missing are the declared ports that are not served, unexpected the served ones that are not declared, in order, repetitions kept. |
| Validator.PortsReported | internal/validator/validator.go:57-65 | The ports a whole validation reports, by membership, for absent, unnamed and existing services. |
| Validator.ComputeContractStatus | internal/validator/validator.go:191-213 | NonCompliant for a failed service or workload check, else Warning for any failure, else Compliant; severity plays no part. |
| Validator.DocumentedVerdictAgrees | internal/validator/validator.go:191-213 | Code and documented rule agree on a list of checks if and only if no error-severity failure stands without a resource failure. |
| Validator.ValidationRanked | internal/validator/validator.go:46-91 | No two checks of a validation share a condition type. |
| Overrides.ApplyConfigurationOverrides | internal/controller/pacto_controller.go:844-890 | Equal to a left fold of overrides whatever order maps are walked in; nothing when a name is unknown; nothing that existed before the call is modified, and the result shares no configuration with the input. |
| Overrides.ApplyByKey | internal/controller/pacto_controller.go:875-887 | Each key has the value of the last override that sets it, in the last configuration of that name; all else keeps its value. |
| Overrides.ApplyGivesValues | internal/controller/pacto_controller.go:875-887 | A configuration has values afterwards if and only if it had some or an override goes to it. |
| Overrides.ReportedAreLast | internal/controller/pacto_controller.go:875-887 | The keys reported for a name are those of its last override. |
| Overrides.ApplyKeepsRest | internal/controller/pacto_controller.go:863-873 | Names, schemas and references are never changed. |
| Overrides.SortedKeysUnique | internal/controller/pacto_controller.go:880-886 | The report of overridden keys does not depend on map order. |
| Overrides.LessEqMeans | internal/controller/pacto_controller.go:880-886 | The order of that list: a prefix first, and otherwise by the first character that differs. |
| Overrides.CopyConfigurations | internal/controller/pacto_controller.go:863-873 | The copy has the same configurations in fresh, pairwise separate maps. |
| ImageRef.MatchesOnReferences | internal/validator/runtime_checks.go:283-318 | On printed references: a match if and only if the canonical references are equal, or host and path are equal, the expected has neither tag nor digest, and the actual has at most one of them. |
| ImageRef.NormalizeIdempotent | internal/validator/runtime_checks.go:320-334 | Normalising twice is normalising once, for all strings. |
| ImageRef.MatchesReflexive | internal/validator/runtime_checks.go:283-318 | Every string matches itself. |
| ImageRef.MatchesTransitive | internal/validator/runtime_checks.go:283-318 | Matching is transitive over all strings. |
| ImageRef.MatchesAntisymmetric | internal/validator/runtime_checks.go:283-318 | Strings that match each other have the same normal form. |
| ImageRef.TagTestIsExact | internal/validator/runtime_checks.go:298-307 | A registry port is never taken for a tag. |
| ImageRef.RepositoryPartOfPrint | internal/validator/runtime_checks.go:309-316 | What is compared as repository has lost its digest, or else its tag, never both. |
| ImageRef.NormalizePrint | internal/validator/runtime_checks.go:320-334 | Normalising a printed reference prints its canonical form. |
| ImageRef.NormalizeByFirstSegment | internal/validator/runtime_checks.go:320-334 | For all strings: the first segment is a registry if and only if it has a dot or a colon; other names are Docker Hub's. |
| ImageRef.ParsePrint | internal/validator/runtime_checks.go:320-334 | Printed references can be read back, so distinct canonical references print differently. |
| Credentials.LookupAfterMerge | internal/credentials/resolve.go:98-112 | Merged hosts are canonical, so a lookup finds what the last secret with that host offered, and finds nothing exactly when no secret has it. |
| Credentials.MergeToDockerConfigJSON | internal/credentials/resolve.go:187-222 | Last secret wins per canonical host, in any map order; an error is that of the first secret that is refused. |
| Credentials.RefusalMeans | internal/credentials/resolve.go:190-212 | Exactly which secrets stop a merge, and with which error. |
| Credentials.TrimAround | internal/credentials/resolve.go:204-204 | White space around a registry is no part of it. |
| Credentials.MergeIsDetermined | internal/credentials/resolve.go:187-222 | Map order does not show if and only if the last secret with each host offers one entry for it; a repeated host that a later secret overrides is harmless. |
| Credentials.MergesAreReached | internal/credentials/resolve.go:187-222 | The merges spoken of are exactly the results of merging the secrets one after another with each map walked in some order of its keys. |
| Credentials.EveryOverlayIsWalked | internal/credentials/resolve.go:200-203 | Whatever laying one secret's entries over a merge may give, some order of its keys does give. |
| Credentials.MergeAbsorbs | internal/credentials/resolve.go:187-222 | A merge that is put among its own sources is a merge of them still, and as determined as before. |
| Credentials.NoRepeatsDetermine | internal/credentials/resolve.go:201-203 | In particular it does not show when no single secret repeats a host. |
| Credentials.MergeMayBeAmbiguous | internal/credentials/resolve.go:201-203 | One secret that spells a host twice has two merges. |
| Credentials.GhcrIsAmbiguous | internal/credentials/resolve.go:201-203 | Failing input: one source with entries for ghcr.io and https://ghcr.io merges to either. |
| Credentials.MergedOpaqueComesBack | internal/credentials/resolve.go:187-222 | From merge and lookup an opaque secret that is the last to mention its host gives back exactly its non-empty token, under the user _token, whatever else it holds; otherwise exactly its user name and password. |
| Credentials.MergedEntryComesBack | internal/credentials/resolve.go:187-222 | A Docker configuration that is the last to mention a host gives back one of its own entries for it. |
| Credentials.UnmentionedFindsNothing | internal/credentials/resolve.go:98-112 | A host no secret mentions finds nothing. |
| Credentials.OpaqueEntryResolves | internal/credentials/resolve.go:133-153 | The same for one entry, colons in the token included; the entry spells basic credentials out, and its auth field alone says the same. |
| Credentials.EntryMeans | internal/credentials/resolve.go:133-153 | An entry is its explicit user name and password if it has both, else its auth field cut at the first colon, else an error, each kind by its cause. |
| Credentials.AuthFieldAlone | internal/credentials/resolve.go:142-150 | The encoded field alone carries basic credentials if and only if the user name is not empty and has no colon (section 2 of RFC 7617). |
| Credentials.NormalizeHostIdempotent | internal/credentials/resolve.go:112-130 | Normalising a registry host twice is normalising it once, for all strings. |
| Credentials.NormalizeSpelledHost | internal/credentials/resolve.go:112-130 | Scheme and path are no part of a host. |
| Credentials.NormalizeBareSpelling | internal/credentials/resolve.go:115-131 | Nor is a scheme without a path. |
| Credentials.RegistryOfReference | internal/credentials/resolve.go:157-181 | A reference asks for the credentials of its canonical host, however it is spelled. |
| Credentials.RegistryByFirstSegment | internal/credentials/resolve.go:157-178 | For all strings: a first segment with a dot or a colon is the registry, anything else is Docker Hub's. |
| Credentials.RegistryWithoutDigest | internal/credentials/resolve.go:163-166 | A digest does not matter. |
| Credentials.MatchRegistry | internal/credentials/resolve.go:98-112 | An entry kept under some spelling of the registry's canonical host, or none exactly when no key is one. |
| Credentials.FromSecret | internal/credentials/resolve.go:45-96 | An opaque secret: its token whole if it holds one, else exactly its user name and password, else an error. A Docker configuration: the credentials of an entry kept under some spelling of the host, and each error by its cause. |
| Base64.DecodeEncode | internal/credentials/resolve.go:224-229 | Decoding undoes encoding for every byte string. |
| Base64.GroupIsNumber | internal/credentials/resolve.go:224-229 | Four digits write three bytes as one number, most significant first; with Base64.Alphabet this fixes the encoding. |
| Base64.Alphabet | internal/credentials/resolve.go:224-229 | The alphabet of RFC 4648, table 1. |
| Base64.DecodesWhen | internal/credentials/resolve.go:142-145 | Decoding succeeds exactly on whole groups of four with at most two padding characters at the end (section 4 of RFC 4648). |
| Base64.LineBreaksDropOut | internal/credentials/resolve.go:142-145 | Line breaks do not matter, wherever they stand. |
| Dashboard.RetryingConverges | internal/dashboard/reconciler.go:49-87 | Exactly when retrying converges. After any number of passes cut short by failing calls, with or without effect, the first error-free one ends as an error-free pass would have ended at once, if and only if the feature is disabled, the sources do not merge, or the last of them with each host offers one entry. |
| Dashboard.CleanupIsSafe | internal/dashboard/reconciler.go:206-245 | Cleanup, complete or cut short, removes only objects at its six keys that carry both management labels, and changes none. |
| Dashboard.CleanupIsComplete | internal/dashboard/reconciler.go:206-245 | An error-free disabled pass leaves no labelled object at the six keys. |
| Dashboard.KeysInFull | internal/dashboard/reconciler.go:210-223 | The six keys by kind, namespace and name; an enabled pass writes these and the namespace. |
| Dashboard.ManagedMeans | internal/dashboard/reconciler.go:231-236 | The two labels cleanup asks for, with their values. |
| Dashboard.EnabledIsIdempotent | internal/dashboard/reconciler.go:61-87 | A successful enabled pass changes nothing when repeated without errors if and only if the last source with each host offers one entry. |
| Dashboard.EnabledPassLeaves | internal/dashboard/reconciler.go:61-87 | What a successful enabled pass leaves at each key, in full: the dashboard's five resources with their labels and parts, and the managed secret with a merge of the configured secrets, or none without such. |
| Dashboard.EnabledPassNamespace | internal/dashboard/reconciler.go:127-143 | An existing namespace stays as it is, a missing one is created with the labels. |
| Dashboard.SourcesAfterMerge | internal/dashboard/reconciler.go:177-194 | The managed secret may be one of its own sources: they still merge, to the same, and as determined as before. |
| Dashboard.SourcesInFull | internal/dashboard/reconciler.go:177-186 | The sources are the secrets of the configured names, in order, in the configured namespace. |
| Dashboard.SpelledTwiceFlips | internal/dashboard/reconciler.go:177-194 | With one source that spells a host twice, with different credentials, a repeated error-free pass can change the store. |
| Dashboard.GhcrFlips | internal/dashboard/reconciler.go:177-194 | The same at the source with entries for ghcr.io and https://ghcr.io. |
| Dashboard.RunSparesOthers | internal/dashboard/reconciler.go:49-87 | Over every sequence of enabled and disabled passes, whatever fails, objects at other keys are untouched. |
| Dashboard.DisablingUndoesEnabling | internal/dashboard/reconciler.go:49-87 | An enabled pass followed by a disabled one leaves nothing at the six keys, the namespace, and everything else as before. |
| Dashboard.EnabledDeletesOnlyManagedSecret | internal/dashboard/reconciler.go:164-175 | A successful enabled pass deletes an existing object if and only if it has the managed secret's name and no source secrets are configured; labels are not asked for. |
| Dashboard.ApplyKeepsForeignFields | internal/dashboard/reconciler.go:145-159 | Applied fields win, fields set by others survive, and only fields applied before, not applied now and not shared are dropped. |
| Dashboard.DroppedFieldsGo | internal/dashboard/reconciler.go:145-159 | A field applied once and not again goes, unless someone else had set it to the same value. |
| Dashboard.ApplyTwice | internal/dashboard/reconciler.go:145-159 | Applying a configuration twice is applying it once, also when it drops fields applied before or shares fields with other managers. |
| Dashboard.Reconciler.Reconcile | internal/dashboard/reconciler.go:49-87 | Success means an end an error-free pass may have, for some order of the sources' maps; failure leaves the store after some of the steps; without failing calls the result is such an end. |
| Dashboard.Reconciler.Cleanup | internal/dashboard/reconciler.go:206-245 | The loop over six keys with its skips and early returns. |
| Dashboard.Reconciler.ReconcileOciCredentials | internal/dashboard/reconciler.go:160-195 | Reads the source secrets, merges them as the credentials module does, in whatever order their maps are walked, and applies the result, or deletes the managed secret when there are none. |

## Left out

- HTTP probing, pulls and listings: their results are inputs; only their effect on the status is modelled.
- The pacto library (parsing, validation, readiness evaluation, reference resolution): its results are inputs, as
  functions of the effective contract where the operator passes it that.
- SHA-256 is a function whose results have 64 characters; JSON is the identity on its map.
- Field-by-field copies of the contract into the status, and owner mapping: the status keeps the effective contract.
- Metrics, log lines and message texts. Of events, those of status and readiness are kept, those of revisions not.
- One reconciliation reads the clock once, for its conditions, its readiness and its stamp.
- Overridden keys stand in the status as a set; that their sorted list is unique is `Overrides.SortedKeysUnique`.
- controller-runtime beyond a queue with dirty and working sets, informer events, retries and timed requeues.
- The revision name a reconciliation ensures is an input of `Reconcile`, and a reconciliation in `WatchLoop` is reduced to its
  reads and its status write; ensuring and syncing revisions have modules of their own.
- Pull-secret changes are mapped, but the watch loop's invariant is about snapshots, which do not depend on secrets.
- A panic in the sync ends the model of that sync; what the worker does with it is not modelled.
- Revisions deleted by someone else, and the garbage collection of owned objects.
- Deletion is immediate: foreground deletion of dependents is not modelled.
- Contents of the dashboard's resources other than labels and credentials, and quantity parsing.
- Trimming of white space covers ASCII only; names are counted in characters, not bytes.
- OciRef.TaggedRefStaysInRepository: leaves out bases with escapes, which the sync does not decode, and with digests,
  which it never handles.
- RevisionSync.SyncCovers: speaks of the revision of that name; that it is of that content is `RevisionSync.CoveredContent`.
- The current content of a tag, in the sync, is what the loader answers; without credentials of its own that may come from
  the 30-second load cache, and the list of tags from the five-minute one.
- A turn of the sync lists and gets the present ledger; that these reads may be stale too is only in `RevisionLedger`.
- What a dashboard source holds besides registry credentials, and the ownership of shared list entries inside a field.
