# podmesh, modelled and proved

podmesh runs workloads for namespace owners who do not trust the machines in between. An *agent* admits a
workload, reserves room for it, starts it as a pod and keeps an encrypted record of it; a *proxy* routes
traffic to the *sidecars* inside pods; `podctl` keeps the owner's list of trusted keys. This project models the
parts of that system where state, failure and order interact, and proves what they promise.

## What is proved

**The agent's workload lifecycle** (`Lifecycle`, `LifecycleInvariant`, `LifecycleRuns`, `Capacity`, `Startable`,
`Restart`, `Refusal`, `Unrecorded`, `Recovery`, `CompareAndSwap`, `Ownership`, `Completion`, `Landing`,
`LandingRuns`). The agent is a state machine whose steps are the stretches of code between two awaits or lock
releases. Tasks of different workloads interleave freely, a task can be cancelled wherever it waits, every store
call can fail, every runtime call can fail with or without having taken effect, an abandoned creation can take
effect later, and the process can crash anywhere and start again with any of its records unreadable. Over every
such run: a pod never exists without a record; a record is always charged or quarantined; a pod never runs a third
revision; updates are a compare-and-swap on the stored revision; ids are held once; the reserved share is
respected, and capacity too exactly while every rollback fits; a restart is refused only if a record was saved
that did not fit the store; and interrupted recoveries converge to one clean recovery. Every change is traced to
the guard it was made under: a workload is deployed as admitted, updated as requested, and deleted only for its
own namespace; and each operation is shown to end where it promises. `AgentService` and `Reconciliation` hold the
same code as an object with loops, each method proved to take exactly the machine's steps.

**The proxy's tables** (`Routes`, `Selection`, `Sessions`). The routing table equals what its history of accepted
registrations says, traffic for a hostname stays with the owner who claimed it, selection is optimal and, unless
its cursor wraps inside a round, fair, the connection and session maps never disagree, and an identity proven on a
connection is fixed for its life.

**Credential renewal across both sides** (`Identities`, `Authorization`). Whatever a sidecar installs, the proxy
accepts its next presentation exactly when the credential is valid by the proxy's clock.

**Four smaller cores.** The trust file's parser, printer and crash-safe replacement (`TrustText`, `Trust`,
`TrustLaws`, `TrustExact`, `TrustKeys`, `TrustStore`); the HTTP head reader (`Head`); paginated anti-entropy
(`Sync`, `SyncLaws`); and the replay cache (`Replay`).

## Where the code does not meet a property

Each has a concrete run or a lemma for all inputs, and the exact condition under which the property holds.

- **Capacity.** Rolling back an update that had asked for less puts the old sizes back without checking them
  again; meanwhile another admission may have taken the room (`Witnesses.RollbackOvercommits`). One rollback stays
  within capacity if and only if the test on the way in would pass again (`Capacity.RollbackNeedsRecheck`), a run
  does throughout if and only if every rollback in it would (`Capacity.CapacityRespected`), and only rollbacks of
  shrinking updates can fail (`Capacity.OnlyShrinkingRollbacksFail`).
- **Restart.** An update is checked against `active` only and a rollback not at all, so the records on disk may
  outgrow what a start accepts (`Witnesses.RollbackBlocksRestart`, `Witnesses.UncountedGrowthBlocksRestart`). After
  a save every restart is possible if and only if the same test passes on the store (`Startable.SaveExactly`). A run
  can be started again at every point if and only if all its saves pass (`Startable.StartableExactly`), and from a
  store that does not fit there is a start that is refused (`Refusal.UnfittingStoreIsRefused`). The agent's own
  checks are enough without a saved shrinking rollback and without growth while a record is quarantined
  (`Restart.ChecksSuffice`).
- **Records only in memory.** A deletion cancelled between removing its record and forgetting the workload, then
  repeated with a store that fails, leaves a charged workload that looks active and has neither a record nor a pod
  (`Witnesses.CancelledDeleteLeavesGhost`). A step does this if and only if it cancels a task at that point
  (`Unrecorded.StepRecorded`), and likewise for runs (`Unrecorded.RecordedExactly`); a start clears it
  (`Unrecorded.StartIsRecorded`).
- **Failed saves that land.** A deploy's first save can report a failure and take effect all the same, and its record
  is then neither charged nor quarantined (`LandingRuns.FirstSaveCanLand`). With any failed saves and removals
  landing, every stored record is charged or quarantined throughout a run if and only if no first save does this
  (`LandingRuns.CoveredExactly`), a start heals it (`LandingRuns.StartCovers`), and pods, their revisions and the
  holding of ids are not affected at all (`LandingRuns.LandingKeepsPods`, `LandingRuns.LandingHeldOnce`).
- **Orphans.** With a runtime that accepts the cleanup of an uncertain creation, as `MockRuntime` does, a creation
  can land after its record is gone (`Witnesses.AcceptingRuntimeOrphansPod`). The default `cleanup_failed_deploy`
  refuses; runs are free of orphans if and only if it does (`Witnesses.OrphanFreeExactly`), and the run-wide
  results assume it.
- **Saturation.** The saturating comparison is exact if and only if no capacity is `u64::MAX`
  (`AccountingLaws.SaturationExact`); results about sums assume that.
- **Routes.** A replica that refreshes with an earlier clock can strand a hostname
  (`Routes.EarlierClockStrandsHost`). A registration keeps every hostname supported if and only if it keeps up with
  the claims it leaves (`Routes.RegisterSupports`), and a history does throughout if and only if all its accepted
  registrations do (`Routes.SupportedExactly`).
- **Rotation.** Rounds, however many, are fair if and only if the cursor does not wrap in them, wraps at a multiple of
  the number of candidates, or wraps once and between two rounds (`Selection.RoundsAreFair`, `Routes.SelectIsFair`,
  `Selection.WrapSkipsReplica`).
- **Trust file.** A removal that failed at its last step and is repeated reports success without writing, and a
  loss of power can undo it (`TrustStore.RetriedRemovalCanBeLost`), even when neither the file on disk nor the visible
  one has the entry (`TrustStore.RemovalBetweenRenamesCanBeLost`). A success survives if and only if it wrote, or the
  file sure to be on disk and every one renamed into its place since show it (`TrustStore.SuccessSurvivesExactly`):
  after any run, if and only if the file has shown it ever since it was last sure to be on disk, and so always when
  the last change was confirmed (`TrustStore.RunSuccessSurvives`). A typed file is recognised past a comment but
  refused (`TrustLaws.CommentBeforeHeaderRefused`): its version is accepted if and only if its first line that is
  not blank is the header, and with a comment anywhere it does not parse (`TrustLaws.TypedHeaderExactly`).
- **Replay.** A key that expired is still refused while a live one stands before it in the queue
  (`Replay.ExpiredBehindLive`). For every history a call is refused if and only if its key is remembered and it or an
  older remembered one is live (`Replay.RefusedExactly`).
- **Documentation.** The comment on `restore` says that a record that cannot be reconciled is skipped and its
  resources released. The code keeps it in memory and charged, and the model follows the code.

## Model

| member | source | states |
|---|---|---|
| Quantities.SumPick | podmesh-agent/src/service.rs:186-209 | The exact sum of sizes over a map does not depend on the order in which its entries are added |
| AccountingLaws.ClampPlus | podmesh-agent/src/service.rs:160-176 | Adding to saturated counters is saturating the exact sum |
| AccountingLaws.SaturationExact | podmesh-agent/src/service.rs:177-182 | The saturated capacity comparison agrees with the exact one for every sum if and only if no capacity is the maximal value |
| AccountingLaws.CeilingExact | podmesh-agent/src/service.rs:647-660 | The reserved ceiling is exactly the floor of the configured share of capacity, and at most capacity |
| AccountingLaws.NarrowingExact | podmesh-agent/src/service.rs:211-219 | Below the ceiling, combining usage through a 32-bit cpu field loses nothing |
| AccountingLaws.AdmittedExactly | podmesh-agent/src/service.rs:706-808 | An admission is accepted exactly when nothing is quarantined, nothing holds the workload, the limits of workloads and reservations leave room, and the exact sums fit capacity and the reserved share; otherwise the first that fails is the reason |
| AccountingLaws.ExpiredDoNotCount | podmesh-agent/src/service.rs:706-716 | A reservation counts until it expires and no longer |
| AccountingLaws.AcceptedFits | podmesh-agent/src/service.rs:706-808 | An accepted admission fits exactly, in total and below the reserved ceiling |
| AccountingLaws.AdvertisedRoomIsBounded | podmesh-agent/src/service.rs:436-458 | Advertised room never falls below capacity minus running work minus the ceiling |
| AccountingLaws.OfferIsHonoured | podmesh-agent/src/service.rs:436-458 | A fresh workload of an offered size can be refused only by the reservation-count or pending-capacity limits |
| AccountingLaws.AcceptedWasOfferable | podmesh-agent/src/service.rs:706-808 | Any accepted admission is one an offer would have been made for |
| AgentService.ActiveUsage | podmesh-agent/src/service.rs:186-197 | The loop over active records computes the saturated exact sum of their sizes |
| AgentService.ReservedTotal | podmesh-agent/src/service.rs:199-209 | The loop over reservations computes the saturated exact sum of their sizes |
| AgentService.TotalWithout | podmesh-agent/src/service.rs:221-234 | The usage of everything but one workload is the saturated exact sum without it |
| AgentService.Agent.CapacityOffer | podmesh-agent/src/service.rs:436-458 | The offer's locked section is exactly the machine's sweep, and offers the free room exactly when an offer is allowed |
| AgentService.Agent.Admit | podmesh-agent/src/service.rs:706-808 | The admission's locked section is exactly the machine's step and returns the first reason to refuse |
| AgentService.Agent.Guard | podmesh-agent/src/service.rs:580-602 | A workload's guard is taken exactly when it is free and the table has room, and otherwise nothing changes |
| AgentService.Agent.StartDeploy | podmesh-agent/src/service.rs:978-1070 | The deploy's locked section consumes the reservation in every case, and records and charges the workload or gives up |
| AgentService.Agent.Judge | podmesh-agent/src/service.rs:1210-1268 | The update's checks give the machine's verdict, first reason first |
| AgentService.Agent.StartUpdate | podmesh-agent/src/service.rs:1210-1282 | The update's locked section is exactly the machine's step: a refusal or a failed save changes nothing but the guard |
| AgentService.Agent.RestoreNext | podmesh-agent/src/service.rs:1726-1753 | One turn of the restore loop leaves of its record what the record's own calls leave, case by case, and of everything else nothing changed; it takes only recovery steps of the machine |
| AgentService.Agent.RestoreAll | podmesh-agent/src/service.rs:1718-1753 | The loop leaves every record that could be read as its own calls leave it, and nothing else changed |
| AgentService.Agent.FinishRestore | podmesh-agent/src/service.rs:1754-1770 | The agent starts serving exactly when the restored records fit its capacity, and otherwise stops |
| AgentService.Agent.Restore | podmesh-agent/src/service.rs:1718-1770 | The agent serves exactly when there are not too many records and those its calls keep fit; every record is left as its calls leave it; and when every call succeeds the settled store is stored, charged and running |
| Reconciliation.RestoreOne | podmesh-agent/src/service.rs:1774-1882 | By the record's phase and the outcome of each call, reconciling leaves the stated record, charge and pod, and that is what the machine's steps leave |
| Reconciliation.ReconcileFollows | podmesh-agent/src/service.rs:1774-1882 | The machine can always take those steps, one to three of them, and ends there |
| Reconciliation.SucceedsRecovers | podmesh-agent/src/service.rs:1718-1882 | A start in which everything can be read and every call succeeds leaves the settled store in memory and running |
| LifecycleInvariant.LocalStepKeeps | podmesh-agent/src/service.rs:978-1882 | Every step of every task keeps its workload's invariant relating record, memory, pod and task |
| LifecycleRuns.StepKeeps | podmesh-agent/src/service.rs:706-1882 | Every step of the agent, its environment, a crash or a restart keeps the invariant of the whole agent |
| LifecycleRuns.InvariantHolds | podmesh-agent/src/service.rs:706-1882 | The invariant holds after every run |
| LifecycleRuns.StoresNested | podmesh-agent/src/service.rs:1110-1167 | In every run each pod has a record, and while the agent serves each record is charged or quarantined |
| LifecycleRuns.PodRevisionAllowed | podmesh-agent/src/service.rs:1269-1367 | In every run a pod runs the granted revision or, during an update, the previous or the requested one |
| LifecycleRuns.HeldOnce | podmesh-agent/src/service.rs:243-250 | In every run an id is held at most once across active, quarantined and reservations |
| LifecycleRuns.AlreadyActiveNeverFires | podmesh-agent/src/service.rs:1010-1019 | A deploy whose reservation names its workload never finds it already active |
| LifecycleRuns.QuarantineStopsPlacement | podmesh-agent/src/service.rs:1728-1743 | While a record is quarantined nothing is reserved and nothing is being created |
| LifecycleRuns.QuarantineIsPermanent | podmesh-agent/src/service.rs:1755-1769 | While serving, only a crash changes the quarantine |
| Ownership.TasksAreEntitled | podmesh-agent/src/service.rs:580-602 | In every run each task works under the guard it was let in with: a deploy for its grant, an update for its request, a deletion for the namespace of the workload |
| Ownership.RemovedByOwner | podmesh-agent/src/service.rs:1458-1665 | While serving, a record or pod goes away only by the deploy that made it or by a deletion guarded for the record's namespace, and only such a deletion marks a record |
| Ownership.ForeignDeleteChangesNothing | podmesh-agent/src/service.rs:1486-1512 | A deletion guarded with another namespace leaves store, memory and pods as they were and gives its guard back |
| Ownership.OperationsFinish | podmesh-agent/src/service.rs:978-1665 | In every run the last section of an operation leaves, by its guard, the grant stored, charged and running or nothing; the requested or the expected revision stored, charged and running; or nothing or the workload charged |
| Ownership.ReservationsAreAdmitted | podmesh-agent/src/service.rs:706-808 | In every run each reservation is what an accepted admission asked for, for thirty seconds, with at most 1024 in all and 16 of one namespace |
| Ownership.DeployedAsAdmitted | podmesh-agent/src/service.rs:1000-1053 | A deploy goes on exactly when its save succeeds and its reservation is held, live, admitted for its own namespace and workload and covers what was measured; it is charged the admitted size, and the reservation is used up in every case |
| Ownership.AdmittedCanDeploy | podmesh-agent/src/service.rs:706-808 | An accepted admission can be deployed by any matching grant until it expires |
| Ownership.SweepsExactly | podmesh-agent/src/service.rs:706-716 | An offer or an admission drops exactly the reservations that have expired |
| Completion.DeployCompletes | podmesh-agent/src/service.rs:1054-1108 | From every state in which a deploy may begin, with its calls succeeding, it ends with exactly its grant stored, charged with the reserved size and running |
| Completion.FailedDeployCleansUp | podmesh-agent/src/service.rs:1110-1167 | A deploy that certainly failed and is cleaned up leaves exactly the agent with the reservation used |
| Completion.UnsavedDeployCleansUp | podmesh-agent/src/service.rs:1084-1108 | So does one that ran and could not be saved |
| Completion.FailedCleanupIsKept | podmesh-agent/src/service.rs:1110-1137 | A deploy whose cleanup fails stays recorded and charged, marked for cleanup |
| Completion.UncertainDeployIsKept | podmesh-agent/src/service.rs:1110-1137 | A deploy that may still take effect stays recorded and charged, marked for cleanup |
| Completion.CancelledDeployMayLand | podmesh-agent/src/service.rs:1054-1083 | A deploy cancelled in flight stays recorded and charged, and its pod may still appear |
| Completion.UpdateCompletes | podmesh-agent/src/service.rs:1269-1367 | An accepted update whose calls succeed ends with exactly the requested grant and size stored, charged and running |
| Completion.UpdateRollsBack | podmesh-agent/src/service.rs:1299-1326 | An accepted update that the runtime refuses ends with the workload stored, charged and running as it was |
| Completion.UnsavedUpdateStaysPending | podmesh-agent/src/service.rs:1350-1367 | An update that runs and cannot be saved stays recorded as in progress |
| Completion.FailedRollbackStaysPending | podmesh-agent/src/service.rs:1299-1326 | So does one that is refused and cannot be rolled back |
| Completion.DeleteCompletes | podmesh-agent/src/service.rs:1612-1653 | A deletion for the workload's namespace whose calls succeed leaves nothing of it |
| Completion.FailedDeleteRestores | podmesh-agent/src/service.rs:1654-1665 | A deletion that the runtime refuses leaves the workload stored and charged as it was |
| Completion.UnremovedDeleteStaysMarked | podmesh-agent/src/service.rs:1644-1653 | A deletion whose record cannot be removed leaves it marked, with the pod gone |
| Completion.UnsavedDeleteIsTakenBack | podmesh-agent/src/service.rs:1612-1638 | A deletion whose mark cannot be saved leaves the workload charged as one not being deleted |
| Completion.DeleteCleansUp | podmesh-agent/src/service.rs:1517-1531 | Deleting a workload whose creation certainly failed leaves nothing of it |
| Landing.LocalLands | podmesh-agent/src/store.rs:195-256 | Every step of every task keeps a workload's looser invariant, whether or not a store call that fails in it takes effect |
| LandingRuns.MoveCovers | podmesh-agent/src/service.rs:706-1882 | With failed saves and removals that may land, every step keeps the whole invariant, and leaves a record neither charged nor quarantined if and only if it is a deploy's first save that lands |
| LandingRuns.LandingKeepsPods | podmesh-agent/src/service.rs:978-1882 | In every such run each pod has a record, and runs a revision the record allows |
| LandingRuns.LandingHeldOnce | podmesh-agent/src/service.rs:243-250 | In every such run an id is held at most once across active, quarantined and reservations |
| LandingRuns.CoveredExactly | podmesh-agent/src/service.rs:1040-1060 | In such a run every record is charged or quarantined throughout if and only if no first save fails and lands |
| LandingRuns.StartCovers | podmesh-agent/src/service.rs:1718-1770 | Right after a start every record is charged or quarantined again |
| LandingRuns.FirstSaveCanLand | podmesh-agent/src/service.rs:1040-1060 | From every state of such a run in which a deploy goes on, its first save can fail and land, leaving such a record |
| Capacity.ReplacementFits | podmesh-agent/src/service.rs:1254-1268 | The test an update makes is exact: it passes if and only if everything committed with the new size fits |
| Capacity.RollbackNeedsRecheck | podmesh-agent/src/service.rs:1299-1326 | A rollback stays within capacity if and only if that test would pass for the old sizes |
| Capacity.OnlyShrinkingRollbacksFail | podmesh-agent/src/service.rs:1299-1326 | A rollback of an update that had not asked for less always passes |
| Capacity.ReservedStaysBelowCeiling | podmesh-agent/src/service.rs:706-808 | In every run reservations hold at most the floor of their share of capacity |
| Capacity.CapacityRespected | podmesh-agent/src/service.rs:706-1367 | A run keeps active plus reserved resources within capacity throughout if and only if every rollback it publishes would pass the test again |
| Capacity.OffersAgreeWithAdmissions | podmesh-agent/src/service.rs:436-458 | On every state such a run reaches offers and admissions agree, in both directions |
| Capacity.RestoredFitsExactly | podmesh-agent/src/service.rs:1754-1768 | The saturated check that ends a restore passes if and only if the exact sum of the restored records fits |
| Startable.SaveExactly | podmesh-agent/src/service.rs:1254-1326 | After a deploy, an update, a rollback or a deletion saves a record, every start is possible if and only if the capacity test passes on the store with the new record |
| Startable.OtherStepKeepsStore | podmesh-agent/src/service.rs:706-1882 | No other step makes a start impossible |
| Startable.StartableExactly | podmesh-agent/src/service.rs:1718-1770 | At every point of a run every start is possible, whichever records can be read, if and only if every save passed that test |
| Restart.ChecksSuffice | podmesh-agent/src/service.rs:1254-1326 | In every run without a saved shrinking rollback and without growth under quarantine the agent's own checks imply that all saves pass |
| Restart.RestartNeverRefused | podmesh-agent/src/service.rs:1718-1770 | In every run whose saves pass, both start-up checks pass after a crash, whichever records can be read |
| Refusal.UnfittingStoreIsRefused | podmesh-agent/src/service.rs:1718-1770 | From every state of the invariant whose records do not fit, running or stopped, there is a start that is refused |
| Unrecorded.StepRecorded | podmesh-agent/src/service.rs:1612-1665 | A step leaves a charged workload without a record if and only if it cancels a task that has removed the record and not yet forgotten the workload |
| Unrecorded.RecordedExactly | podmesh-agent/src/service.rs:706-1882 | In a run everything charged has a record throughout if and only if no such task is cancelled |
| Unrecorded.StartIsRecorded | podmesh-agent/src/service.rs:1718-1770 | Right after a start everything charged has a record |
| Recovery.SettleIdempotent | podmesh-agent/src/service.rs:1774-1882 | Recovering a recovered store changes nothing |
| Recovery.StepSettles | podmesh-agent/src/service.rs:1774-1882 | No step of any restore, failed or not, changes what the store settles to |
| Recovery.RecoverySettles | podmesh-agent/src/service.rs:1718-1770 | Nor does any sequence of restores, crashes and late effects |
| Recovery.RecoveryConverges | podmesh-agent/src/service.rs:1718-1882 | After any failed or interrupted restores, one restore whose calls succeed ends with the store, memory and pods of a single clean restore |
| Recovery.RepeatChangesNothing | podmesh-agent/src/service.rs:1718-1882 | Restoring a recovered store again, with failures on the way, leaves it as it is |
| Recovery.CleanRestoreExists | podmesh-agent/src/service.rs:1718-1882 | From every stopped state a clean restore runs to its end |
| CompareAndSwap.StepIsSwap | podmesh-agent/src/service.rs:1210-1367 | A step changes a stored revision only by a submitted request that expects the revision it replaces |
| CompareAndSwap.StoredRevisionsFormChain | podmesh-agent/src/service.rs:1210-1367 | Over any stretch of any run the changes of a stored revision, in order, lead from the first to the last, and each was made by a submitted request that expected what it replaced, across failures, crashes and restarts |
| CompareAndSwap.RefusedUpdatesChangeNothing | podmesh-agent/src/service.rs:1210-1367 | While every request for a workload is refused, its stored revision and the one its pod runs stay what they were, through everything else that happens |
| CompareAndSwap.JudgedOnStoredRevision | podmesh-agent/src/service.rs:1221-1253 | On the stored record: an update is not found, not active, unchanged, of another identity or a conflict exactly in the stated cases, and otherwise accepted exactly when it fits with everything else |
| Witnesses.RollbackOvercommits | podmesh-agent/src/service.rs:1299-1326 | A run after which an agent of capacity 10 owes 19 |
| Witnesses.RollbackBlocksRestart | podmesh-agent/src/service.rs:1754-1768 | A run with such a rollback after which the agent cannot start |
| Witnesses.UncountedGrowthBlocksRestart | podmesh-agent/src/service.rs:1754-1768 | A run with a quarantined record and no rollback after which the agent cannot start |
| Witnesses.CancelledDeleteLeavesGhost | podmesh-agent/src/service.rs:1612-1665 | A run that ends with a workload in memory that looks active and has neither a record nor a pod |
| Witnesses.AcceptingRuntimeOrphansPod | podmesh-agent/src/runtime.rs:146-153 | For every configuration that admits workloads, a run with a runtime that accepts uncertain cleanups that ends with a pod without a record |
| Witnesses.OrphanFreeExactly | podmesh-agent/src/runtime.rs:48-54 | No run leaves a pod without a record if and only if the runtime refuses to clean up uncertain creations |
| Replay.ReplayCache.Record | podmesh-agent/src/service.rs:51-75 | The in-place loop computes the cache's specification and reports a replay exactly when the key is remembered |
| Replay.AlwaysConsistent | podmesh-agent/src/service.rs:46-75 | However it is used, the queue lists the map's keys once each and is bounded |
| Replay.RecordMoves | podmesh-agent/src/service.rs:51-75 | While an entry is live, refused calls leave it in place and accepted ones push it one place towards eviction |
| Replay.ReplayRefused | podmesh-agent/src/service.rs:51-75 | A key is refused again until it expires or as many other keys as the bound have been accepted |
| Replay.ReplayForgottenAtBound | podmesh-agent/src/service.rs:51-75 | The bound is exact: accepting that many other keys forgets it |
| Replay.RememberedWasAccepted | podmesh-agent/src/service.rs:51-75 | Nothing is refused that was not accepted before |
| Replay.CacheIsJournal | podmesh-agent/src/service.rs:51-75 | After any calls queue and map hold exactly the notes of accepted calls that are not forgotten, oldest first |
| Replay.RefusedExactly | podmesh-agent/src/service.rs:51-75 | A call is refused if and only if its key is noted and not forgotten, and that note or an older remembered one is still live |
| Replay.ExpiredBehindLive | podmesh-agent/src/service.rs:51-75 | A key recorded after one that lives longer is refused past its own expiry until the other expires |
| Selection.SelectsBestPort | podmesh-proxy/src/routes.rs:371-393 | A port is selected exactly when it is that of a matching route such that no matching route is for a host when it is not, and at the same scope none has a longer prefix, nor at the same length a lower port; matching is spelled out on the path before the first question mark and on names that differ in case only |
| Selection.OrderDoesNotMatter | podmesh-proxy/src/routes.rs:366-393 | The choice depends on the set of routes only |
| Selection.QueryAndCaseDoNotMatter | podmesh-proxy/src/routes.rs:371-393 | Neither the query string nor the case of the host affects the choice |
| Selection.Candidates | podmesh-proxy/src/routes.rs:218-230 | The candidates are exactly the replicas that can serve, by ascending index |
| Selection.CandidatesUnique | podmesh-proxy/src/routes.rs:218-230 | A request has one list of candidates |
| Selection.RotationPermutes | podmesh-proxy/src/routes.rs:232-237 | A rotated list is a permutation of the candidates with the chosen one first |
| Selection.EqualTurns | podmesh-proxy/src/routes.rs:232-237 | In any whole number of rounds, however many, each candidate comes first equally often if the cursor does not wrap or wraps at a multiple of their number |
| Selection.RoundsAreFair | podmesh-proxy/src/routes.rs:232-237 | Rounds, however many, are fair if and only if the cursor does not wrap in them, wraps at a multiple of the number of candidates, or wraps once and between two rounds |
| Selection.RoundIsFair | podmesh-proxy/src/routes.rs:232-237 | One round is fair if and only if the cursor does not wrap inside it or wraps at a multiple of the number of candidates |
| Selection.WrapSkipsReplica | podmesh-proxy/src/routes.rs:232-237 | Three candidates and a cursor about to wrap: one comes first twice and one not at all |
| Routes.AnyTaken | podmesh-proxy/src/routes.rs:155-169 | The first loop finds whether another owner holds one of the hostnames |
| Routes.ClaimHosts | podmesh-proxy/src/routes.rs:171-180 | The second loop claims exactly the hostnames of the registration, in lower case |
| Routes.DropStale | podmesh-proxy/src/routes.rs:286-290 | The prune loop keeps exactly the fresh backends of every entry |
| Routes.RouteTable.Register | podmesh-proxy/src/routes.rs:129-201 | Registering in place computes the specified outcome and table |
| Routes.RouteTable.Prune | podmesh-proxy/src/routes.rs:279-297 | Pruning in place computes the specified table |
| Routes.RouteTable.Select | podmesh-proxy/src/routes.rs:210-238 | Selection returns the rotated candidates, and advances the cursor only when there are any |
| Routes.HistoryExplains | podmesh-proxy/src/routes.rs:129-297 | After every history the table has exactly the backends and claims of the last accepted registrations that no prune found stale, each under its own owner, and no empty entry |
| Routes.ResolvesExactly | podmesh-proxy/src/routes.rs:254-261 | After every history a hostname in any case resolves to the key of the accepted registration that last claimed it and was not found stale since, and otherwise to nothing |
| Routes.RegistersExactly | podmesh-proxy/src/routes.rs:129-169 | After every history a registration is accepted exactly when no backend of the key is another owner's, there is room for a new key, and no hostname of it was last claimed by another owner |
| Routes.RefreshesOneReplica | podmesh-proxy/src/routes.rs:184-200 | An accepted registration refreshes its own replica and leaves every other backend, and its entry's turn and name |
| Routes.PrunesExactly | podmesh-proxy/src/routes.rs:279-297 | A prune keeps exactly the backends and claims not older than the limit |
| Routes.RegisterSupports | podmesh-proxy/src/routes.rs:171-201 | An accepted registration leaves every claim with an entry of its owner and a backend at least as recent if and only if it keeps up with the claims it leaves |
| Routes.PruneSupports | podmesh-proxy/src/routes.rs:279-297 | Pruning never strands a claim, whatever clock it is given |
| Routes.SupportedThroughout | podmesh-proxy/src/routes.rs:129-297 | While registration times never go back, every claim stays supported and none is later than the last registration |
| Routes.SupportedExactly | podmesh-proxy/src/routes.rs:129-297 | Every claim is supported at every point of a history if and only if every accepted registration keeps up with the claims it leaves |
| Routes.OrderedKeepsUp | podmesh-proxy/src/routes.rs:184-200 | Registration times that never go back keep up |
| Routes.HostTrafficStaysWithClaimant | podmesh-proxy/src/routes.rs:254-261 | While registrations keep up, a hostname resolves only to a live entry all of whose backends were registered by the owner who claimed the hostname |
| Routes.KeyKeepsOwner | podmesh-proxy/src/routes.rs:140-147 | A routing key that stays in the table keeps its owner |
| Routes.HostKeepsOwner | podmesh-proxy/src/routes.rs:162-169 | A hostname that stays claimed keeps its owner |
| Routes.ExpiryFrees | podmesh-proxy/src/routes.rs:279-297 | After a prune a registration is accepted if and only if no one else holds something fresh and there is room |
| Routes.EarlierClockStrandsHost | podmesh-proxy/src/routes.rs:184-200 | For every registration, a refresh with an earlier clock and without the hostname, then a prune between the two times, leave a hostname that resolves to a missing key |
| Routes.CursorCounts | podmesh-proxy/src/routes.rs:232-232 | The cursor counts selections modulo its width |
| Routes.SelectionTurns | podmesh-proxy/src/routes.rs:210-238 | Each selection is a permutation of the candidates, and the one it puts first is the one whose turns the fairness results count |
| Routes.SelectIsFair | podmesh-proxy/src/routes.rs:210-238 | Over whole rounds of selections every replica that can serve comes first equally often if and only if the entry's cursor wraps fairly |
| Sessions.TenantSessions.Begin | podmesh-proxy/src/tenant_sessions.rs:62-79 | A session begins only for an endpoint without one, and starts unproven |
| Sessions.TenantSessions.ProveOnce | podmesh-proxy/src/tenant_sessions.rs:82-112 | A first proof is accepted only on the current connection and only once |
| Sessions.TenantSessions.ProveBound | podmesh-proxy/src/tenant_sessions.rs:124-177 | A bound credential is installed exactly when it verifies for this endpoint and renews what is there |
| Sessions.TenantSessions.ProvenLive | podmesh-proxy/src/tenant_sessions.rs:180-201 | A tenant is returned exactly while its credential still verifies |
| Sessions.TenantSessions.RemoveIfCurrent | podmesh-proxy/src/tenant_sessions.rs:204-219 | Only the current connection can be forgotten |
| Sessions.ConnectionRegistry.Open | podmesh-proxy/src/iroh_runtime.rs:779-814 | Opening succeeds exactly for an endpoint without a connection while there is room, and changes both maps together or neither |
| Sessions.ConnectionRegistry.Close | podmesh-proxy/src/iroh_runtime.rs:847-857 | Closing the current connection clears both maps; closing any other changes nothing |
| Sessions.DistinctOpsCommute | podmesh-proxy/src/tenant_sessions.rs:62-219 | Operations on different endpoints commute in effect and in success |
| Sessions.MapsAgree | podmesh-proxy/src/iroh_runtime.rs:779-858 | In every run both maps hold the same endpoints and generations, within the limit |
| Sessions.BeginNeverFails | podmesh-proxy/src/iroh_runtime.rs:803-812 | Beginning a session for a newly inserted connection never fails |
| Sessions.StaleChangesNothing | podmesh-proxy/src/tenant_sessions.rs:88-98 | In every run a step of a connection that is not current changes nothing |
| Sessions.SessionIdentityIsFixed | podmesh-proxy/src/tenant_sessions.rs:151-167 | In an unbroken proven session generation, owner, manifest, workload and signer never change and times never go back |
| Sessions.BoundTenantsAreAuthentic | podmesh-proxy/src/tenant_sessions.rs:124-177 | In every run a tenant put on record by a bound proof decodes to an identity of that endpoint, under a delegation of its owner and manifest, with a canonical key, valid when accepted |
| Sessions.BoundAcceptedExactly | podmesh-proxy/src/tenant_sessions.rs:124-177 | A bound proof is accepted exactly on the current connection, when authentic and, over a tenant on record, for the same owner, manifest, workload and signer with no earlier times |
| Sessions.TenantsAreProven | podmesh-proxy/src/tenant_sessions.rs:62-219 | A tenant is on record if and only if a proof was accepted since its connection opened, and is that of the last one |
| Authorization.Configure | podmesh-sidecar/src/authorization.rs:17-52 | A connector is refused exactly when its text does not decode, names another connector or is out of scope, and otherwise starts out in its configured scope, holding nothing or an identity that names it |
| Authorization.WorkloadAuthorization.Install | podmesh-sidecar/src/authorization.rs:54-86 | An identity is accepted exactly when it is of the configured delegation, verifies and does not go back; watchers hear only of changes |
| Authorization.InstalledIsPresented | podmesh-sidecar/src/authorization.rs:54-102 | An identity is installed exactly when it is of the configured delegation, names this connector, is valid and takes no time back, and is then presented exactly while valid |
| Authorization.StaysInStep | podmesh-sidecar/src/authorization.rs:54-86 | After any installs, presentations and reconnects the proxy's record is an earlier credential of this sidecar, never ahead of the current one |
| Authorization.RenewalsAreAccepted | podmesh-proxy/src/tenant_sessions.rs:124-177 | After any installs, presentations and reconnects a credential the sidecar presents is accepted by the proxy if and only if it is valid by the proxy's clock |
| Authorization.AuthorityNeverRegresses | podmesh-sidecar/src/authorization.rs:65-84 | What the sidecar holds keeps its delegation and keys, and its times never go back |
| TrustText.LinesOfJoin | podctl/src/trust.rs:182-185 | Splitting into lines undoes joining them |
| TrustText.SortedAscends | podctl/src/trust.rs:265-276 | Sets are printed in strictly ascending order |
| Trust.TrustRegistry.InsertAgent | podctl/src/trust.rs:253-260 | Adding an agent key in place does what the specification says, or nothing |
| Trust.TrustRegistry.ReadRecord | podctl/src/trust.rs:227-246 | One typed record changes the registry as specified, or fails with the first applicable error |
| Trust.TrustRegistry.ParseTyped | podctl/src/trust.rs:207-251 | The loop over a typed file computes its specification, errors included |
| Trust.TrustRegistry.ParseLegacy | podctl/src/trust.rs:193-205 | The loop over a file in the older format computes its specification, errors included |
| Trust.TrustRegistry.Parse | podctl/src/trust.rs:178-191 | Size limit and format are decided first, then the right loop runs |
| Trust.TrustRegistry.InsertProxy | podctl/src/trust.rs:312-324 | Inserting refuses an existing origin or a full registry and otherwise adds exactly the identity |
| Trust.TrustRegistry.ReplaceProxy | podctl/src/trust.rs:326-338 | Replacing needs an existing origin and returns what was there |
| Trust.TrustRegistry.RemoveProxy | podctl/src/trust.rs:340-342 | Removing leaves everything else and returns what was there |
| Trust.TrustRegistry.ToCanonicalString | podctl/src/trust.rs:262-280 | The printing loops produce the canonical text |
| TrustLaws.ParsedIsValid | podctl/src/trust.rs:178-260 | Whatever parses respects both limits and holds only well-formed, canonically named entries |
| TrustLaws.RoundTrip | podctl/src/trust.rs:178-280 | Parsing the canonical text of a valid registry gives it back if it fits the limit, and the size error otherwise |
| TrustLaws.LegacyMigrates | podctl/src/trust.rs:193-205 | Whatever parses in the older format prints to a text that fits and parses to the same registry |
| TrustLaws.TextIdentifies | podctl/src/trust.rs:262-280 | Canonical text identifies a registry |
| TrustLaws.CommentBeforeHeaderRefused | podctl/src/trust.rs:182-226 | A comment before the header does not change the format chosen but makes a typed file fail |
| TrustLaws.TypedHeaderExactly | podctl/src/trust.rs:182-251 | The version of a typed file is accepted if and only if its first line that is not blank is the header, and with a comment anywhere it does not parse |
| TrustLaws.LegacyIgnoresComments | podctl/src/trust.rs:193-205 | In the older format a comment line makes no difference, wherever it stands |
| TrustExact.FormatExactly | podctl/src/trust.rs:182-191 | A text is typed exactly when its first line that is neither blank nor a comment starts with the name of the format |
| TrustExact.LegacyExactly | podctl/src/trust.rs:193-205 | A text in the older format parses exactly when the keys its lines list are valid and at most 1024, and its agents are then exactly those |
| TrustExact.TypedExactly | podctl/src/trust.rs:207-251 | A typed text parses exactly when the header comes first, every later line is blank or a record of valid parts, no origin comes twice and the limits hold, and its agents and proxies are then exactly those its records name |
| TrustExact.TrimExactly | podctl/src/trust.rs:193-215 | Trimming removes exactly the white space around a text |
| TrustExact.FieldsExactly | podctl/src/trust.rs:226-229 | A line splits into the texts between gaps of ASCII white space |
| TrustKeys.KeysAreEncodings | podctl/src/trust.rs:628-644 | A key is valid exactly when it is the base64 text of some 32 bytes |
| TrustStore.TrustFile.Persist | podctl/src/trust.rs:571-585 | The sequence of file operations, stopped at any point, leaves the specified disk |
| TrustStore.TrustFile.Execute | podctl/src/trust.rs:549-620 | A command loads, changes and persists as specified, and writes nothing when it is refused or idle |
| TrustStore.PersistIsAtomic | podctl/src/trust.rs:571-585 | From any disk and under any fault, the visible file is wholly old before the rename and wholly new after it, and a loss of power leaves exactly what it could have left before or, after the rename, the new file; after a success nothing else |
| TrustStore.SuccessThenLoad | podctl/src/trust.rs:591-620 | After a success, loading gives the updated registry |
| TrustStore.ChangesOneProxy | podctl/src/trust.rs:312-342 | An insertion never touches a trusted identity, a replacement needs one, a removal removes one, and every other identity and every agent stays |
| TrustStore.CommandExactly | podctl/src/trust.rs:591-620 | Without a fault a command succeeds exactly when the file loads, the change is allowed, and nothing is to be written or the text fits; otherwise the disk stays |
| TrustStore.UnreadableStopsCommands | podctl/src/trust.rs:549-569 | A missing file is an empty registry, and one that does not parse stops every command before it writes |
| TrustStore.SuccessSurvivesExactly | podctl/src/trust.rs:591-620 | What a reported success asked for is in the file after every loss of power if and only if the command wrote, or the file sure to be on disk and every one renamed into its place since show it |
| TrustStore.RunSuccessSurvives | podctl/src/trust.rs:549-620 | After any run of commands, faults and losses of power, if and only if it wrote or the file has shown it ever since it was last sure to be on disk; so always if the last command that changed the file reported success or power was lost since |
| TrustStore.RetriedRemovalCanBeLost | podctl/src/trust.rs:608-620 | For every registry, a removal that failed at its last step and is retried can be undone by a power loss |
| TrustStore.RemovalBetweenRenamesCanBeLost | podctl/src/trust.rs:571-620 | For every registry and new entry, inserting and removing it with failed directory syncs and removing it again reports success, and a loss of power that keeps only the first rename brings it back |
| TrustStore.NoWrittenSuccessIsLost | podctl/src/trust.rs:549-620 | Through any faults, kills and power losses the visible file, and every file a further loss of power could leave, is the original changed by the commands in order, with every written success in it and every other command in it wholly or not at all |
| Head.Position | podmesh-sidecar/src/http_connect_proxy.rs:105-108 | The search finds the first line feed |
| Head.TakePiece | podmesh-sidecar/src/http_connect_proxy.rs:103-111 | One turn of the loop takes bytes in order, within the limit, and cannot step over the end of the head |
| Head.ReadHead | podmesh-sidecar/src/http_connect_proxy.rs:97-117 | The result is the shortest prefix that ends the head, or the right error, and exactly the bytes after it are left |
| Head.EndsExactly | podmesh-sidecar/src/http_connect_proxy.rs:112-114 | A head ends exactly with the bytes 13, 10, 13, 10 or 10, 10 |
| Head.OutcomeIsDetermined | podmesh-sidecar/src/http_connect_proxy.rs:97-117 | An input has one correct outcome, so the pieces it arrives in do not matter |
| Head.Connect | podmesh-sidecar/src/http_connect_proxy.rs:278-300 | However the input arrives, the head that is read and the stream handed over are together exactly the input, and there is one to hand over exactly when the input has a head within the limit |
| Head.Forward | podmesh-sidecar/src/http_connect_proxy.rs:310-357 | However the input arrives, a plain request is handed over exactly when its head is within the limit and parses, and the destination receives the rewritten head and then exactly the bytes after the head |
| Head.RewrittenIsHead | podmesh-sidecar/src/http_connect_proxy.rs:335-347 | Whatever follows, the rewritten head is read as exactly one head |
| Head.ForwardedExactly | podmesh-sidecar/src/http_connect_proxy.rs:341-346 | Every header is forwarded as often as it came, except those meant for the proxy, of which none is |
| Head.ForwardedInOrder | podmesh-sidecar/src/http_connect_proxy.rs:341-346 | The forwarded headers stand at ascending places, exactly those of headers not meant for the proxy |
| Head.ForProxyExactly | podmesh-sidecar/src/http_connect_proxy.rs:343-343 | A header is for the proxy exactly when it starts with the six characters, each letter in either case |
| Head.ForwardedReads | podmesh-sidecar/src/http_connect_proxy.rs:335-348 | Whoever receives a forwarded request reads its method, path and version and then the forwarded headers, whatever follows |
| Sync.Connector.AuthorizeCatalog | podmesh-sidecar/src/service_cache.rs:103-163 | A catalog is authorized exactly when it verifies and is the one on record for its manifest, or the first and its services fit the address table; otherwise nothing changes |
| Sync.Connector.Merge | podmesh-sidecar/src/service_cache.rs:173-213 | A record is taken, ignored as older or refused exactly as the source's checks in their order say, and only a taken one changes the cache |
| Sync.Connector.MergePage | podmesh-sidecar/src/peer_connector.rs:197-204 | The loop over a page authorizes and merges its records in order and counts exactly those taken |
| Sync.Connector.SyncInner | podmesh-sidecar/src/peer_connector.rs:174-213 | Against any peer the cursors rise strictly within bounds, at most the page limit is asked, exactly the received pages are merged, and the count returned is that of the records taken |
| Sync.HonestSync | podmesh-sidecar/src/peer_connector.rs:549-561 | Against an honest peer it succeeds if and only if the snapshot fits the page bound, and then receives exactly the snapshot |
| Sync.ReceivingNeverRegresses | podmesh-sidecar/src/service_cache.rs:103-213 | Receiving anything never loses a replica, changes its generation or takes it back, and never replaces an authorized catalog |
| SyncLaws.CacheIsVouchedFor | podmesh-sidecar/src/service_cache.rs:103-213 | However it is used, everything in a cache passed its checks, is under its own slot and carries the approved catalog of its manifest, exactly the services of those catalogs have addresses, and the cache is bounded |
| SyncLaws.ExchangeIsBounded | podmesh-sidecar/src/peer_connector.rs:174-213 | No peer makes one synchronization receive more than 512 records |
| SyncLaws.FirstCatalogWins | podmesh-sidecar/src/peer_connector.rs:196-204 | Where the catalogs of two records of a manifest differ, the first authorized wins and the other record is passed over |
| SyncLaws.VouchedAreReceived | podmesh-sidecar/src/peer_connector.rs:196-204 | While the records of a manifest agree on its catalog and verify, receiving them with the checks in between is joining them |
| SyncLaws.MergingFindsNewest | podmesh-sidecar/src/service_cache.rs:173-213 | Merging coherent records leaves the newest known one of every slot, whatever their order |
| SyncLaws.TwoWaySyncConverges | podmesh-sidecar/src/peer_connector.rs:174-213 | After each side synchronizes from the other both hold the same records, the newest either knew |

## Left out

- Cryptography: signatures, sealed payloads and credentials are predicates (`Identities.Checks`) or their results are parameters of a step; only the bindings an update request checks are modelled.
- Decoding, measuring and manifests: whether they succeed is a parameter of a step, and so are clocks, fresh ids and call results.
- In-place form of the lifecycle: the machine works on values because its tasks interleave; `AgentService` has admission, offers, guards, the locked sections of deploy and update, and restore in place, and leaves the short sections of delete, rollback and failed deploys to the machine.
- Store failures that take effect: `Landing` and `LandingRuns` have them for pods, revisions and ids; the results on capacity, restarts, recovery and revisions swapped take a failed save or remove to have changed nothing.
- Pods are keyed by workload id: an update that changes the kind of a workload, and with it the runtime's name for it, is not modelled, nor are records without a runtime id from earlier versions.
- Late effects of updates and of restores: an in-flight deploy takes effect before its call returns or not at all; only abandoned first creations are late.
- Enrollment appears only as another holder of a workload's guard.
- Selection: the cursor has 64 bits; prefix lengths are counted in characters, which orders prefixes of one path as bytes do.
- Trust: the URL library is a parameter whose results are taken to be canonical and printable; file permissions, text that is not UTF-8 and two `podctl` processes at once are not modelled.
- Head: reading errors of the transport are not modelled, and the parsing of a complete head and of its URL is a parameter whose lines are taken to have text and no line feed.
- Sync: the clock and the results of signature checks do not change during one synchronization; a catalog that verifies is taken to have valid names, and which address and names a service gets is not modelled.
- Metrics, logging, timers, rate limits, configuration, the command line, transports, the scheduler, YAML conversion, DNS and packet filters: leaving them out drops easy members only.
