# Agent control logic, modelled and proved in Dafny

The Agent carries out commands from a remote Control while processes die, commands fail,
messages repeat and files cannot be written. This project models the engines that must keep
their promises under all of that and proves the promises for every input and every run.
`dafny verify dfyconfig.toml` checks the whole project.

| file | engine |
|---|---|
| `PluginJournal.dfy` | the plugin Supervisor's durable operation journal: admission, completion, crash and reload |
| `PluginSupervisor.dfy` | one plugin's lifecycle: install, configure, enable, disable, update, rollback, exit watchers, recovery, shutdown |
| `LifecycleGate.dfy` | the gate that shutdown waits on |
| `ControlStream.dfy` | the control stream's receive loop and worker over one session after another |
| `AnxPlan.dfy` | which anx-server processes run and which transports share one |
| `AnxServer.dfy` | driving one anx-server process to the wanted users, links, routes and reverse dials |
| `RouteAllocator.dfy` | routing tables and rule priorities for a network plan |
| `RouteApply.dfy` | making the host's rules and tables those of the routes |
| `Multipath.dfy` | the MPTCP path monitor |
| `Versions.dfy` | release tags: their grammar and their order |
| `Upgrade.dfy` | installing a release and rolling back |
| `NodeReload.dfy` | replacing a running node or putting the old one back |
| `UserDiff.dfy` | incremental user changes against the limiter's table |
| `AliveList.dfy` | the alive list assembled from pages |

How the source is modelled:

- Objects whose methods change their fields are classes; a critical section is one step, so
  concurrent callers are arbitrary sequences of steps. Whole-run results are either lemmas over
  every sequence of events (`Run(s, events)`) or invariants (`Valid()`) that every method keeps,
  with a driver method over an arbitrary script.
- Anything that can fail (an RPC, a command, a file write, a process, a health probe) is an
  arbitrary choice, a `written` flag in the event, or an answer passed in. Arbitrary failures are
  counted in a ghost field (`faults`), so that an operation is said to fail only if something did.
  A failed RPC to anx-server and a failed `ip` command may or may not have taken effect; a failed
  MPTCP command, a failed core call and a failed state write change nothing, except that in
  `NodeReload` a failed change of users may leave any users on a node. Time shows up only as "the
  deadline has passed" choices.
- Strings that are only compared are numbers, 0 standing for the empty string. Release tags and user
  keys are modelled character by character. Digests and signatures are fields or flags. Where a
  number's width matters it is written out (`MAX_INT` in `Versions`, `MAX_UINT32` in
  `RouteAllocator`).
- Go's map order is an arbitrary choice from a set; results are proved not to depend on it.

What the proofs turned up, each stated as a lemma or as an exact condition:

- `ControlStream`: a cancelled mark is kept per operation id, so a second revision of the same id
  that is cancelled while queued erases the first one's mark and the first then runs
  (`SecondRevisionLosesTheMark`, for every id and any two revisions). Cancellation holds if and only
  if an id comes at one revision (`CancelHoldsIffOneRevision`). An operation that stands right before
  its handler runs even when a newer revision is observed meanwhile; `PastIsExact` says exactly when
  nothing at or below an observed revision runs any more.
- `AnxServer`: `group` refuses repeated link ids but not repeated link keys, and a user id is derived
  from the key. Removing one of two links with one key removes the other's user
  (`SharedKeyLosesAUser`); `AdmittedIsExact` says when, and `UsersAreExactAgain` when it is mended.
- `RouteAllocator`: the search for a free number counts in uint32. In a range that ends at 2^32-1
  and is too small it goes on from 0, so it answers a number below the range or never ends instead of
  reporting a full range (`SearchWrapsAround`, `TooSmallAtTheTop`); `Routes` states the exact condition.
- `NodeReload`: the comment on replaceNodeLocked says nodeAdded always tells whether the core runs
  the node. When the new node's users and its delete both fail and the previous configuration has
  another tag, it does not: two nodes may run (`TwoNodesRun`), or only the abandoned one
  (`OnlyTheAbandonedRuns`). `TruthfulUnlessMisled` is the if-and-only-if, and `RunIsExact` over runs. With
  one tag nodeAdded is right, but the abandoned configuration runs while the controller skips the
  previous one as unchanged, against the comment on reconcileLocked (`SkippedWhileAnotherRuns`). A named
  node's limiter is not rebuilt for a user list that comes with a configuration; no caller passes one
  today.
- `UserDiff`: the sync key leaves out the user id, so a kept user whose id changed stays in the
  limiter under the old id (`ChangedIdIsLost`). A NUL inside a field makes keys of different users
  equal, and the limiter keeps a user that is gone (`NulKeepsTheWrongUser`). `ComparedIsRebuild` is the
  if-and-only-if for all lists without a repeated uuid. A user that was deleted before the addition
  failed is not added again when the next list has it unchanged (`GoingBackLosesTheDeleted`).
- `Versions`: `v1.0.0-rc` and `v1.0.0-rc.0` compare as equal (`BareIsZero`); `EqualExactlyAtOnePlace`
  says which tags do.
- `Upgrade`: the target is looked for in every word a binary prints, so one of an older version that
  prints the target too goes in (`AnotherWordGoesDown`).
- `Multipath`: one round is not enough to reach the settled state (`OneRoundIsNotEnough`).
- `AliveList`: the bound also trips on an entry for a user that is already in the list
  (`RepeatTripsTheBound`).
- `PluginJournal`: an interrupted operation whose replay could not be written is taken out of memory and
  comes back as a new operation, without the leave to repeat its revision (`FailedWriteForgets`).
- `PluginJournal`: the branch of the admission loop that repairs a running entry without a done
  channel cannot be reached (`RetryIsUnreachable`).

## Model

| member | source | states |
|---|---|---|
| PluginJournal.AdmitKeepsInv | plugin/supervisor.go:521-584 | one admission, whether its write succeeds or not, keeps idempotency keys unique in memory and on disk, keeps at most one executor per id and exactly one done channel per running entry |
| PluginJournal.StepKeepsInv | plugin/supervisor.go:521-625 | so does every event: delivery, completion, another plugin's write, crash, reload |
| PluginJournal.RunKeepsInv | plugin/supervisor.go:521-625 | over every run no two journal entries share an idempotency key and an id is executed by one caller at a time, exactly while it is journaled as running |
| PluginJournal.StepKeepsRecord | plugin/supervisor.go:605-620 | no event changes a finished entry on disk |
| PluginJournal.RunKeepsRecord | plugin/supervisor.go:1546-1573 | a finished entry on disk survives every run, crashes and reloads included |
| PluginJournal.FinishedOperationIsFinal | plugin/supervisor.go:521-625 | an operation durably journaled as finished is never executed again, and while the Supervisor is open an equal request gets the recorded outcome and a different one under its id is refused |
| PluginJournal.InterruptedIsReplayed | plugin/supervisor.go:521-584 | an operation that was on disk as running when the Supervisor died is executed again as a repair replay at its next delivery, through any other deliveries, completions, failed loads and crashes |
| PluginJournal.LoadOpens | plugin/supervisor.go:1512-1575 | a load opens exactly when it is written or nothing was running, and leaves nothing running |
| PluginJournal.NewIsExecuted | plugin/supervisor.go:569-584 | a new operation with an unused key is executed and durably journaled as running |
| PluginJournal.ExecutedExactly | plugin/supervisor.go:521-584 | exactly when a delivery executes, and that it is a repair exactly for a known id |
| PluginJournal.FailedWriteForgets | plugin/supervisor.go:577-582 | an admission whose write fails executes nothing, leaves the disk alone and takes the operation out of memory, so that a repair replay comes back as a new operation |
| PluginJournal.CompletedIsRecorded | plugin/supervisor.go:604-624 | the executor's outcome answers every equal request from then on |
| PluginJournal.ExecutedOncePerLife | plugin/supervisor.go:521-624 | over every run an id is executed at most once between two crashes |
| PluginJournal.RetryIsUnreachable | plugin/supervisor.go:541-551 | a running entry without a done channel never occurs |
| PluginJournal.Journal.constructor | plugin/supervisor.go:183-254 | the empty journal is the start state of the runs |
| PluginJournal.Journal.FindKey | plugin/supervisor.go:566-571 | the scan finds a key held by another id exactly when there is one |
| PluginJournal.Journal.Deliver | plugin/supervisor.go:521-584 | the admission loop's critical section is the step the runs are made of, for every request and write result |
| PluginJournal.Journal.Complete | plugin/supervisor.go:605-620 | so is the executor's last critical section |
| PluginJournal.Journal.Recover | plugin/supervisor.go:1546-1573 | the load loop turns exactly the running entries into interrupted ones, and says whether there was one |
| PluginJournal.Journal.Load | plugin/supervisor.go:1512-1575 | a recovered journal is served only after it was written |
| PluginSupervisor.Supervisor.constructor | plugin/supervisor.go:183-254 | a new Supervisor without a record, process or watcher meets the invariants |
| PluginSupervisor.Supervisor.Persist | plugin/supervisor.go:1641-1650 | a state write replaces the record on disk or leaves the old one; every one is of a well-formed record at no lower revision, and the Agent may die at any of them |
| PluginSupervisor.Supervisor.SetProcess | plugin/supervisor.go:1430-1445 | a new generation with its own optional watcher, for a process that was started and answered its probe |
| PluginSupervisor.Supervisor.RemoveProcess | plugin/supervisor.go:1447-1450 | no process is registered and every watcher is out of date |
| PluginSupervisor.Supervisor.Publish | plugin/supervisor.go:1171-1185 | a started process is registered with its durable record, or both are taken back |
| PluginSupervisor.Supervisor.MarkCleanupPending | plugin/supervisor.go:1827-1839 | the plugin is disabled with that version's cleanup pending and no process registered |
| PluginSupervisor.Supervisor.StartVersion | plugin/supervisor.go:1740-1786 | on success a process of the version runs that answered its probe; otherwise it was stopped and cleaned up, or its cleanup is left pending |
| PluginSupervisor.Supervisor.StopAndClean | plugin/supervisor.go:1817-1825 | with no process there is nothing to stop, and a version without a cleanup hook is clean |
| PluginSupervisor.Supervisor.RecordTransitionFailure | plugin/supervisor.go:1226-1239 | records the original, disabled, at the asked revision, with its cleanup pending unless it was done |
| PluginSupervisor.Supervisor.TakeDown | plugin/supervisor.go:908-928 | stops and cleans the running version and leaves the record alone, or records it disabled with the target unchanged |
| PluginSupervisor.Supervisor.RecoverCleanup | plugin/supervisor.go:1595-1639 | changes nothing of the record but its cleanup, succeeds exactly with a clean one, and does nothing when there was nothing pending |
| PluginSupervisor.Supervisor.InstallPrepared | plugin/supervisor.go:334-401 | adds a durable record or raises its revisions, and on failure keeps what was there |
| PluginSupervisor.Supervisor.Configure | plugin/supervisor.go:729-816 | on success the new hash is durable and an enabled plugin runs with it; on failure target and hash are unchanged, except that a disabled plugin's record keeps the new hash in memory when only the write failed |
| PluginSupervisor.Supervisor.Reconfigure | plugin/supervisor.go:767-816 | restarts an enabled plugin with the new configuration or leaves its target as it was |
| PluginSupervisor.Supervisor.RollbackConfiguration | plugin/supervisor.go:850-876 | the original target at the asked revision, enabled exactly when the old version runs again |
| PluginSupervisor.Supervisor.Enable | plugin/supervisor.go:878-959 | on success the desired version runs and the record is durable; on failure the target is unchanged |
| PluginSupervisor.Supervisor.StartEnabled | plugin/supervisor.go:935-959 | starts and records the desired version, or keeps target and revision |
| PluginSupervisor.Supervisor.Disable | plugin/supervisor.go:961-1021 | on success stopped, clean, disabled and durable; on failure the target is unchanged and nothing runs |
| PluginSupervisor.Supervisor.Update | plugin/supervisor.go:1023-1224 | a version-changing update, failing anywhere, ends with (previous, desired) = (old, target) and the new hash, or errs with all three unchanged; every record it writes, one a crash leaves behind included, has the one or the other; no version is started while cleanup is pending |
| PluginSupervisor.Supervisor.Swap | plugin/supervisor.go:1111-1224 | the same for a running plugin: stop, clean, start the target, record it, or compensate |
| PluginSupervisor.Supervisor.UndoTarget | plugin/supervisor.go:1186-1222 | a target that could not be recorded goes, and the old version is started only once the target is clean |
| PluginSupervisor.Supervisor.RecordRollbackBlocked | plugin/supervisor.go:1241-1252 | disabled, with the cleanup the target left behind merged into the original |
| PluginSupervisor.Supervisor.RestartOld | plugin/supervisor.go:1146-1169 | the old version runs exactly when the record is enabled again, and is started only with no cleanup pending |
| PluginSupervisor.Supervisor.Rollback | plugin/supervisor.go:1262-1276 | succeeds only to the recorded previous version, swapping the two; any other target changes nothing |
| PluginSupervisor.Supervisor.UpdateThenRollback | plugin/supervisor.go:1023-1276 | an update and a rollback that succeed swap the two versions back; if either fails the versions are those before it |
| PluginSupervisor.Supervisor.Execute | plugin/supervisor.go:589-640 | an operation in the order of handle: a success was accepted by the record, is durable at its revision, newer than the record, and leaves versions, configuration, process and cleanup as its kind says (Achieves); a failure of an accepted, newer operation needs something that failed; a cleanup that is owed stays on record |
| PluginSupervisor.Supervisor.Dispatch | plugin/supervisor.go:636-696 | the same behind the recovery and the revision check; an operation that the record does not accept changes nothing |
| PluginSupervisor.Supervisor.Carry | plugin/supervisor.go:698-717 | every kind reaches its own handler: what each success means, in terms of record and process before and after |
| PluginSupervisor.Supervisor.StartConfigured | plugin/supervisor.go:789-826 | the new configuration runs, or after one failure the old one runs again |
| PluginSupervisor.Supervisor.StartTarget | plugin/supervisor.go:1133-1224 | the target runs, or after one failure the old version runs again |
| PluginSupervisor.Supervisor.Exchange | plugin/supervisor.go:1085-1106 | a stopped plugin changes its version once the old one is cleaned up, or keeps it |
| PluginSupervisor.Supervisor.UpdateSame | plugin/supervisor.go:1033-1061 | an update to the version there is |
| PluginSupervisor.Supervisor.RestartDesired | plugin/maintenance.go:195-234 | without a failure the desired version runs again |
| PluginSupervisor.Supervisor.Restore | plugin/supervisor.go:1921-1977 | without a failure what the file says is enabled runs |
| PluginSupervisor.Supervisor.ObserveExit | plugin/supervisor.go:1452-1510 | an exit notice changes something exactly when the process that exited is the registered one; then the plugin is disabled and its cleanup done or pending |
| PluginSupervisor.Supervisor.Maintain | plugin/maintenance.go:195-234 | a maintenance restart keeps the target and the invariants |
| PluginSupervisor.Supervisor.Restart | plugin/supervisor.go:1921-1977 | a new Supervisor over the same file keeps target and revision, and restores only an enabled plugin |
| PluginSupervisor.Supervisor.Close | plugin/supervisor.go:1313-1415 | a shutdown without error leaves nothing running, nothing pending and the record on disk; it changes nothing but the cleanup |
| PluginSupervisor.Supervisor.StopForClose | plugin/supervisor.go:1366-1395 | the stopped process's cleanup stays pending unless the version verified, stopped and cleaned |
| PluginSupervisor.Supervisor.Run | plugin/supervisor.go:494-625 | over every script of operations, exits, maintenance and shutdowns, with crashes between them and at any write inside them: a registered process implies enabled with observed version equal to desired, the observed revision never exceeds the desired one, revisions on disk never go back, successes have strictly increasing revisions unless replayed, the registered process is one of the desired version that answered its probe, no process is left behind that is neither registered nor was tried to stop, and a cleanup that failed is on the record until it worked |
| PluginSupervisor.Supervisor.Happen | plugin/supervisor.go:494-625 | so does each thing that happens |
| LifecycleGate.Gate.constructor | plugin/lifecycle_gate.go:20-22 | an open gate with nothing active |
| LifecycleGate.Gate.EnterGate | plugin/lifecycle_gate.go:24-47 | admits exactly while the gate is not closing and the context lives, under a new release function |
| LifecycleGate.Gate.LeaveGate | plugin/lifecycle_gate.go:49-60 | only the first call of a release function leaves, and the last one to leave closes the idle channel |
| LifecycleGate.Gate.Begin | plugin/lifecycle_gate.go:62-77 | nil at once exactly when nothing is active, otherwise the open idle channel |
| LifecycleGate.Gate.AwaitIdle | plugin/lifecycle_gate.go:78-83 | nil only from the closed channel, and always from it while the context lives |
| LifecycleGate.Gate.Interleave | plugin/lifecycle_gate.go:24-83 | in every interleaving a nil answer is for good: nothing is active then or ever after; the idle channel is open exactly while something is active |
| ControlStream.ReceiveKeepsInv | api/agent/client.go:911-987 | each step of the receive loop keeps the engine's invariant |
| ControlStream.WorkerKeepsInv | api/agent/client.go:1000-1096 | so does each step of the worker |
| ControlStream.StepKeepsInv | api/agent/client.go:736-745 | so do the end of a session and the next one, which waits for the worker |
| ControlStream.RunKeepsInv | api/agent/client.go:911-1122 | the invariant holds after every run |
| ControlStream.HandlerRevisionsIncrease | api/agent/client.go:1000-1122 | over a client's whole life, reconnects, duplicates and evictions included, the handler's revisions strictly increase, so no operation runs twice |
| ControlStream.PastIsExact | api/agent/client.go:1024-1070 | once a revision is observed nothing at or below it is handled any more, if and only if the worker has not already passed its last look at it |
| ControlStream.CompletionIsStored | api/agent/client.go:911-987 | a late operation, a completed one and a cancellation that finds nothing are observed at the next store, whatever the worker does meanwhile |
| ControlStream.CompletedNeverRuns | api/agent/client.go:911-987 | over a client's life nothing at or below such a revision is handled after the store, unless the worker stood right before the handler |
| ControlStream.StoresCover | api/agent/client.go:1098-1122 | every other completion is observed too |
| ControlStream.ObservedCame | api/agent/client.go:1441-1456 | the observed revision and everything the engine holds came in a message |
| ControlStream.DeliveredIsHandled | api/agent/client.go:911-1096 | a newer operation with nothing against it is handled, and afterwards observed and forgotten |
| ControlStream.GivenUpIsOver | api/agent/client.go:1019-1066 | an operation given up before its handler is not handled and no longer running |
| ControlStream.OnlyOneRuns | api/agent/client.go:491-613 | over every run only the operation at hand is running, and only while it is at hand |
| ControlStream.LateIsDropped | api/agent/client.go:1000-1017 | a queued operation whose deadline passed is observed, not handled, and forgotten |
| ControlStream.CancelledIsDropped | api/agent/client.go:1000-1017 | so is one with a cancelled mark |
| ControlStream.MarkedIsRefused | api/agent/client.go:949-957 | a delivery of a marked operation is answered without being queued, and the marks go |
| ControlStream.QueueIsBounded | api/agent/client.go:958-964 | the queue never holds more than its size |
| ControlStream.TooManyIsForgotten | api/agent/client.go:958-964 | an operation that finds the queue full leaves no trace |
| ControlStream.OldIsIgnored | api/agent/client.go:930-941 | what is not newer than the observed revision is not queued |
| ControlStream.RunningCancelTells | api/agent/client.go:491-613 | a cancellation of the running operation is told when it finishes, and only then |
| ControlStream.FinishNeedsRunning | api/agent/client.go:601-613 | finishing what is not running changes and tells nothing |
| ControlStream.LateRefusesCopies | api/agent/client.go:459-540 | while an operation is dropped as late another copy of it is refused, and afterwards not any more |
| ControlStream.CancelAnswers | api/agent/client.go:542-582 | exactly when each answer to a cancellation is given, and that the others change nothing |
| ControlStream.ClosedBeginsNothing | api/agent/client.go:615-646 | after a session ended nothing that had not begun is handled in it |
| ControlStream.NextSessionIsFresh | api/agent/client.go:736-803 | the next session keeps the observed revision and nothing else |
| ControlStream.CancelledOperationNeverRuns | api/agent/client.go:542-613 | a cancellation accepted against a queued operation keeps the handler from it, unless another revision of the id was accepted too |
| ControlStream.KeptRevisionIsTheOnlyOne | api/agent/client.go:459-476 | an id that arrives with one revision has that revision everywhere in the engine |
| ControlStream.CancelledIdNeverRuns | api/agent/client.go:949-987 | for an id that keeps one revision the cancellation holds for the session, even if it was queued twice |
| ControlStream.SecondRevisionLosesTheMark | api/agent/client.go:542-582 | for every id and any two revisions there is a run that delivers only those two, in which the first one's cancellation is accepted and it runs |
| ControlStream.CancelHoldsIffOneRevision | api/agent/client.go:459-613 | accepted cancellations of an id always hold if and only if the id is delivered at one revision only |
| ControlStream.Engine.constructor | api/agent/client.go:447-454 | a first session with empty maps is the start state of the runs |
| ControlStream.Engine.Perform | api/agent/client.go:911-1096 | every critical section and atomic access of the receive loop, the worker and the session's end, on the maps, queue and flag as the code keeps them, is the machine's step |
| ControlStream.Engine.LiveThrough | api/agent/client.go:648-1122 | over any interleaving from the start the handler's revisions strictly increase, and it never stands before an operation whose cancellation was accepted, for ids that came at one revision |
| ControlStream.Client.StoreObserved | api/agent/client.go:1445-1456 | the load and compare-and-swap loop, with the other loop storing in between, ends as if the other stores came first and then this one, by maximum |
| ControlStream.StoredGrows | api/agent/client.go:1449-1456 | stores never lower the value and every stored revision is covered |
| ControlStream.Client.Evict | api/agent/client.go:1468-1480 | keeps the newest entries of the completed cache and exactly their observations |
| ControlStream.Client.Remember | api/agent/client.go:1468-1480 | a completed operation is in the cache afterwards with its revision, and every other entry that is left is as it was |
| ControlStream.Client.Complete | api/agent/client.go:1098-1122 | stores the revision and remembers the operation without losing another one that is kept |
| AnxPlan.SharingIsExact | anxserver/plan.go:243-252 | a process's transports are exactly those with its listener |
| AnxPlan.SharingIsDistinct | anxserver/plan.go:319-360 | what one process is wanted to admit has distinct link ids |
| AnxPlan.SharingKeepsOrder | anxserver/plan.go:319-360 | in plan order |
| AnxPlan.ShareExactly | anxserver/plan.go:243-252 | two transports share a process exactly when all it is started with is the same, the sources in any order |
| AnxPlan.AcceptOpens | anxserver/plan.go:363-371 | the ports a transport has its process open |
| AnxPlan.FitsExactly | anxserver/plan.go:323-353 | a transport fits exactly when it either listens or dials back, has the names its jacket needs and sources of different families |
| AnxPlan.CheckAccept | anxserver/plan.go:323-353 | a transport is accepted exactly when it listens or dials back, has the names its jacket needs and one source per family at most |
| AnxPlan.Collect | anxserver/plan.go:319-360 | the first loop accepts exactly the plans whose transports fit and whose link ids are distinct, and groups them by process in plan order |
| AnxPlan.PortListIsExact | anxserver/plan.go:363-371 | the ports a process opens are those the code lists for it |
| AnxPlan.Claim | anxserver/plan.go:368-376 | one more process owns its ports, or shares one with a process before it |
| AnxPlan.CheckPorts | anxserver/plan.go:361-377 | the second loop accepts exactly when no two processes open one port, in every map order |
| AnxPlan.Group | anxserver/plan.go:319-379 | a plan is grouped or refused, with the exact condition |
| AnxPlan.Manager.Apply | anxserver/manager.go:149-197 | the running processes are exactly the plan's, with disjoint ports and distinct link ids, or as before when the plan is refused; failed RST rules are reported after the change |
| AnxPlan.Manager.Replace | anxserver/manager.go:179-195 | stops what is gone, starts what is new, and tells each what to admit |
| AnxServer.RoutesLeadIntoLinks | anxserver/manager.go:607-623 | every wanted route leads into a wanted link |
| AnxServer.RoutesAreTheRelays | anxserver/manager.go:607-623 | for distinct keys the route table is exactly the relaying transports |
| AnxServer.HeldAreTheRelays | anxserver/manager.go:607-623 | the held links are those relayed into, each with the settings of the first accept that names it |
| AnxServer.LastRelayDecides | anxserver/manager.go:607-623 | for any keys the last relaying accept of a key decides its route |
| AnxServer.LinksOf | anxserver/manager.go:527-541 | for distinct link ids the wanted record has exactly the wanted links with their keys |
| AnxServer.AdmittedIsExact | anxserver/manager.go:527-590 | the users left are exactly the wanted ones if and only if no link that goes shares its key with one that stays |
| AnxServer.DistinctKeysAreNotShared | anxserver/manager.go:527-590 | distinct keys meet that condition |
| AnxServer.SharedKeyLosesAUser | anxserver/manager.go:550-560 | two links with one key: removing one loses the other's user |
| AnxServer.KeptAndAddedAreWanted | anxserver/manager.go:534-577 | the kept and the added links together are the wanted record |
| AnxServer.Server.Compare | anxserver/manager.go:531-541 | which links stay and which transports are new |
| AnxServer.Server.RemoveStale | anxserver/manager.go:542-560 | takes exactly the stale users out of the process, then out of the record |
| AnxServer.Server.AddWithRetry | anxserver/manager.go:564-589 | a retried add takes effect once; it fails only after every attempt failed |
| AnxServer.Server.Admit | anxserver/manager.go:527-590 | record and users after an error-free admit; only the first round is tried again and waits for the process, a settled one makes no call, and an error needs a call that failed |
| AnxServer.Server.PlanRelay | anxserver/manager.go:607-623 | the links to hold and the route table, or an error for a link that is not admitted |
| AnxServer.Server.RelayLinks | anxserver/manager.go:603-685 | on success exactly the wanted links and routes; on every path no installed route names a link that is not held |
| AnxServer.Server.ClearAndRemove | anxserver/manager.go:647-665 | routes go before the links they name |
| AnxServer.Server.DialBack | anxserver/manager.go:690-726 | on success exactly the wanted reverse dials |
| AnxServer.Server.Round | anxserver/manager.go:480-510 | a round without error leaves exactly the wanted links, routes and reverse dials, from any tracked state, and exactly the wanted users if and only if no link that goes shares its key with one that stays; a settled round makes no call, and an error needs a call that failed |
| AnxServer.Server.Serve | anxserver/manager.go:480-510 | over any sequence of wanted sets with distinct link ids: links, routes and dials exact after every round that succeeded, routes never dangle, and the users are exact if and only if every wanted key that some round removed was added again since |
| AnxServer.UsersAreExact | anxserver/manager.go:480-590 | up to the first round that removes a shared key the users are exactly the wanted ones, and after that round they are not |
| AnxServer.UserHistory | anxserver/manager.go:480-590 | after any rounds a user is there exactly if some round added its key and every round that removed it added it too or was followed by one that did |
| AnxServer.NoStrangers | anxserver/manager.go:480-590 | a process never has a user without a tracked link |
| AnxServer.UsersAreExactAgain | anxserver/manager.go:480-590 | after every round, also one after a shared key was removed, the users are the wanted ones if and only if every wanted key that was removed was added again |
| AnxServer.DistinctKeysNeverShare | anxserver/manager.go:480-590 | wanted sets with distinct keys have no such round |
| RouteAllocator.CollectStep | networkroute/networkroute.go:89-137 | one more egress adds at most the route it asks for and is then served by a route of its way and pins |
| RouteAllocator.CollectServes | networkroute/networkroute.go:89-137 | every egress that asks for a route is served |
| RouteAllocator.CollectedIsAsked | networkroute/networkroute.go:89-137 | every collected route was asked for |
| RouteAllocator.SharedOnce | networkroute/networkroute.go:127-135 | no two unpinned routes have the same source, interface and gateway |
| RouteAllocator.RouteOfEgress | networkroute/networkroute.go:127-137 | an unpinned egress is served by the unpinned route of its way and a pinned one by its own, the last egress of an id deciding |
| RouteAllocator.ServedWasAsked | networkroute/networkroute.go:127-137 | no id is served that no egress asked for |
| RouteAllocator.RefusedIffUnusable | networkroute/networkroute.go:90-120 | the plan is refused exactly when some egress has a bad source, no interface, a bad gateway or a pin outside the range |
| RouteAllocator.FirstFault | networkroute/networkroute.go:94-120 | the error is the first thing that is wrong with the first egress that is not usable |
| RouteAllocator.LastLineCounts | networkroute/networkroute.go:79-82 | the last line of an id counts and an unknown one has no interface |
| RouteAllocator.FirstErrorWins | networkroute/networkroute.go:94-120 | the error is that of the first bad egress |
| RouteAllocator.Gather | networkroute/networkroute.go:83-137 | the loop with its shared, routeOf, tables and priorities maps computes that collection and exactly its pinned numbers |
| RouteAllocator.FreeIsFree | networkroute/networkroute.go:158-166 | the free numbers are exactly the unused ones of the range, ascending |
| RouteAllocator.AssignIsExact | networkroute/networkroute.go:167-179 | pins are kept; an automatic number is in the range, unused, and on no other route |
| RouteAllocator.AttachedIsUnique | networkroute/networkroute.go:142-156 | the peer lists do not depend on the order the map is walked in |
| RouteAllocator.AddPeers | networkroute/networkroute.go:147-152 | adds the prefixes of the route's family, none twice, at the last priority |
| RouteAllocator.SortPeers | networkroute/networkroute.go:154-156 | the same addresses in order |
| RouteAllocator.Attach | networkroute/networkroute.go:142-156 | every route gets exactly the peers of the egresses it serves, of its family, in address order |
| RouteAllocator.SortIsUnique | networkroute/networkroute.go:157 | when ids determine routes there is one sorted order |
| RouteAllocator.OrderSorts | networkroute/networkroute.go:157 | rearranging by what the library's sort makes of the ids is a permutation in id order |
| RouteAllocator.Rearrange | networkroute/networkroute.go:157 | the routes in that order |
| RouteAllocator.SortKeepsNumbers | networkroute/networkroute.go:157 | sorting keeps the tables and priorities as multisets |
| RouteAllocator.Next | networkroute/networkroute.go:158-166 | the search with its uint32 counter: the first unused number it comes by, past the largest number going on from 0; exhausted past the range, or without an end when every number is used |
| RouteAllocator.CandidatesTake | networkroute/networkroute.go:158-166 | taking a number leaves the other candidates in order |
| RouteAllocator.SearchWrapsAround | networkroute/networkroute.go:158-166 | with the only number of the range 2^32-1 to 2^32-1 used, the search answers 0 |
| RouteAllocator.ScanStaysInRange | networkroute/networkroute.go:158-179 | when the range has enough numbers the search never leaves it |
| RouteAllocator.TooSmallAtTheTop | networkroute/networkroute.go:158-179 | in every range that ends at 2^32-1 and is too small, a route that is answered has a number below the range |
| RouteAllocator.Number | networkroute/networkroute.go:169-178 | one number is the pin or the next candidate, and fails only when there are more automatic numbers than candidates |
| RouteAllocator.FillOne | networkroute/networkroute.go:169-178 | one route more is numbered, or its table or priority is the one that failed |
| RouteAllocator.Fill | networkroute/networkroute.go:167-179 | all numbers are filled in from the candidates exactly when they are enough; otherwise full, or without an end at 2^32-1 |
| RouteAllocator.Routes | networkroute/networkroute.go:78-181 | the first bad egress is the error; otherwise the answer is the proper one (an allocation exactly when the routes fit the range, and full if not) if and only if the range ends below 2^32-1 or the routes fit; routes that are answered are those the search finds, and without a fit one of them has a number below the range |
| RouteAllocator.AnswerLeavesRange | networkroute/networkroute.go:158-181 | routes answered for a plan that does not fit: the range ends at 2^32-1 and some number is below it |
| RouteAllocator.ProperUnlessTop | networkroute/networkroute.go:158-181 | the same for any drafts and order |
| RouteAllocator.NumbersAreSound | networkroute/networkroute.go:116-179 | pins kept, everything in the range, no automatic number on another route, the last priority never automatic |
| RouteAllocator.EveryEgressIsServed | networkroute/networkroute.go:89-137 | every egress with an address source has a route with its source, its line's interface, its gateway and its pins |
| RouteAllocator.EveryRouteIsAsked | networkroute/networkroute.go:89-137 | and there is no other route; every number is in the range |
| RouteAllocator.OnlyPinsAreShared | networkroute/networkroute.go:158-179 | two routes share a table or priority only if their egresses pin it, and the last priority is only ever pinned |
| RouteAllocator.AllocationIsUnique | networkroute/networkroute.go:142-179 | for every plan the result depends on no order in which the peers are walked |
| RouteAllocator.AnySortGivesTheSame | networkroute/networkroute.go:157 | with distinct egress ids it does not depend on the sort either |
| RouteAllocator.DistinctEgresses | networkroute/networkroute.go:135-136 | distinct egress ids give distinct route ids |
| RouteApply.Host.List | networkroute/networkroute.go:377-395 | a listing names every rule of the family once |
| RouteApply.Manager.Wanted | networkroute/networkroute.go:283-293 | exactly the rules and tables the routes of a family want |
| RouteApply.SourceLeadsOut | networkroute/networkroute.go:270-364 | with the rules in place a packet with a route's source leaves through that route's interface and gateway |
| RouteApply.PeerLeadsOut | networkroute/networkroute.go:270-364 | and one to a peer from another source through a route that has the peer |
| RouteApply.Manager.ExactIsInPlace | networkroute/networkroute.go:270-364 | a run without a failure puts them in place |
| RouteApply.Manager.Drop | networkroute/networkroute.go:310-327 | a rule goes, and its table when it is an owned one no route uses |
| RouteApply.Manager.Clear | networkroute/networkroute.go:294-330 | owned rules that do not stay are deleted with their unused tables; a wanted rule that is listed as spelled stays |
| RouteApply.Manager.InstallRoute | networkroute/networkroute.go:335-359 | no rule before its default route, and only rules that are not there |
| RouteApply.Manager.Install | networkroute/networkroute.go:331-360 | on success every wanted rule is there and each table leads where its last route goes |
| RouteApply.Manager.ApplyFamily | networkroute/networkroute.go:278-361 | on success the owned rules are exactly the wanted ones, whatever was there before; other tables are left alone, and a second run over the same listing deletes, flushes and adds nothing |
| RouteApply.Manager.Apply | networkroute/networkroute.go:274-363 | the same for both families; on every run, failing or not, no rule outside the owned range is deleted and no unowned or wanted table flushed; it fails exactly when a command failed |
| Multipath.JudgeCounts | anxline/multipath.go:143-161 | the counters are the lengths of the last run of failures and of successes |
| Multipath.JudgeTracks | anxline/multipath.go:143-161 | a path is unhealthy exactly when the latest decisive window of its whole history was a failing one |
| Multipath.SweepRestores | anxline/multipath.go:162-175 | a sweep with working commands gives every healthy path back and moves nothing when none is healthy |
| Multipath.SweepTakesOut | anxline/multipath.go:162-206 | with every healthy path in, a sweep takes out exactly the dead ones |
| Multipath.SweepRests | anxline/multipath.go:162-175 | nothing moves once that is so |
| Multipath.TwoRoundsSettle | anxline/multipath.go:126-184 | two rounds with unchanged verdicts and working commands reach the fixed point; if any path is healthy the paths out are exactly the dead ones, and a third round moves nothing |
| Multipath.OneRoundIsNotEnough | anxline/multipath.go:162-184 | a state in which one round leaves a dead path in beside a healthy one |
| Multipath.Monitor.constructor | anxline/multipath.go:55-61 | every path healthy and in, with an empty history |
| Multipath.Monitor.EnsureEndpoints | anxline/multipath.go:65-76 | on success every endpoint is in the kernel, and none was taken out |
| Multipath.Monitor.Demote | anxline/multipath.go:186-206 | takes a path out and counts it, or leaves everything as it was; a path whose own flags say backup is not marked |
| Multipath.Monitor.Restore | anxline/multipath.go:208-224 | gives a path back and counts it, or leaves everything as it was |
| Multipath.Monitor.FindUsable | anxline/multipath.go:177-184 | whether another path is healthy and in |
| Multipath.Monitor.TakeOut | anxline/multipath.go:164-170 | taking a path out beside a usable one leaves some path in |
| Multipath.Monitor.GiveBack | anxline/multipath.go:208-224 | giving a path back keeps the counters' balance |
| Multipath.Monitor.Move | anxline/multipath.go:163-173 | one path of the sweep, over any failures: some path stays in, and kernel and record stay in step |
| Multipath.Monitor.Count | anxline/multipath.go:143-161 | the results on every path's counters |
| Multipath.Monitor.SweepAll | anxline/multipath.go:162-175 | the whole sweep, the working one when no command fails |
| Multipath.Monitor.Check | anxline/multipath.go:126-175 | over any results and failures: some path is not out, demotes equals restores plus one exactly when out, health follows the history, and with the delete action an endpoint is in the kernel exactly while its path is in |
| Multipath.Monitor.CheckAll | anxline/multipath.go:89-105 | so it is after any number of rounds |
| Multipath.Monitor.Close | anxline/multipath.go:109-121 | with working commands every path is given back |
| Multipath.Watch | anxline/multipath.go:55-121 | all of it over a monitor's whole life |
| Versions.RoundTrip | upgrade/upgrade.go:187 | every written tag is read back as it was written |
| Versions.OnlyTagsAreRead | upgrade/upgrade.go:187 | and nothing else is read: the pattern is exactly the written tags |
| Versions.ParseText | upgrade/upgrade.go:235-265 | a tag's text parses to its seven numbers, unless one overflows |
| Versions.ValueOfDecimal | upgrade/upgrade.go:241-247 | reading a number gives the number that was written |
| Versions.LeadingZero | upgrade/upgrade.go:241-247 | leading zeros do not count |
| Versions.NumeralIsDecimal | upgrade/upgrade.go:241-247 | every other numeral is the number it is read as, written out |
| Versions.SpacesAround | upgrade/upgrade.go:235-240 | white space around a tag does not matter |
| Versions.ReleasesInOrder | upgrade/upgrade.go:215-247 | releases are ordered as their three numbers are |
| Versions.OrderIsTotal | upgrade/upgrade.go:221-229 | the order is total, antisymmetric, and 0 exactly for equal numbers |
| Versions.OrderIsTransitive | upgrade/upgrade.go:221-229 | and transitive |
| Versions.CompareVersions | upgrade/upgrade.go:215-230 | that order of two texts, ok exactly when both parse |
| Versions.CompareParts | upgrade/upgrade.go:221-229 | the loop over the seven numbers computes that order |
| Versions.SameRelease | upgrade/upgrade.go:235-265 | tags of one release are ordered by their pre-release part |
| Versions.NumbersDecideFirst | upgrade/upgrade.go:241-247 | major, then minor, then patch decide before anything else |
| Versions.RanksAreOrdered | upgrade/upgrade.go:210-214 | alpha before beta before rc before the release, whatever their numbers |
| Versions.BuildsFollowTheirRelease | upgrade/upgrade.go:210-214 | dev builds by number, then hotfixes, come right after the pre-release they follow and before the next |
| Versions.BareIsZero | upgrade/upgrade.go:248-255 | a bare rank and its number 0 are different tags at one place in the order |
| Versions.EqualExactlyAtOnePlace | upgrade/upgrade.go:215-265 | two tags compare as equal if and only if all their numbers agree in value, a bare rank reading as number 0, with the same rank and kind of build |
| Upgrade.OnlyRollbackGoesDown | upgrade/apply.go:196-218 | over any requests without a rollback, of binaries that print no release tag but their own, the installed version never goes down |
| Upgrade.AnotherWordGoesDown | upgrade/upgrade.go:400-407 | any binary of an older version that also prints the target is accepted |
| Upgrade.Applier.CheckVersion | upgrade/apply.go:449-460 | a binary passes exactly when it runs and one of the words it prints names the target |
| Upgrade.Applier.Keep | upgrade/apply.go:341-361 | on success the kept copy is the installed binary with a matching record; on failure nothing, or only the copy, has changed |
| Upgrade.Applier.Restore | upgrade/apply.go:365-377 | puts the kept binary back or leaves the installed one |
| Upgrade.Applier.Replace | upgrade/apply.go:254-270 | renames the binary in and takes it out again when it does not stay up |
| Upgrade.Applier.InstallRelease | upgrade/apply.go:220-271 | whichever step fails, the installed binary is the old one or one that verified, unpacked and printed the target; success keeps the old one with its record |
| Upgrade.Applier.RollBack | upgrade/apply.go:295-338 | whichever step fails, the installed binary is the old one or the kept one matching its record and the target; success swaps the two |
| Upgrade.Applier.Decide | upgrade/apply.go:196-218 | exactly when each outcome is answered, for every request, files and answers of the steps; an upgrade that cannot be ordered or is older is refused before anything changes |
| Upgrade.Applier.Apply | upgrade/apply.go:97-143 | the same, and every request keeps the chain of safe steps |
| Upgrade.Applier.RollBackTwice | upgrade/apply.go:295-338 | two successful rollbacks bring back both binaries |
| Upgrade.Applier.InstallThenRollBack | upgrade/apply.go:220-338 | a rollback after an upgrade reinstates the old binary and keeps the new one |
| NodeReload.Controller.constructor | node/controller.go:198-235 | a started controller: its node in the core with its users, one limiter under its tag |
| NodeReload.AddWorksWithinFour | node/reload.go:142-157 | the retry is one of the first four attempts that works, all before it having found the address in use |
| NodeReload.StartIsExact | node/reload.go:79-138 | a start ends with the node and its users, with the core as before, or with a node that is abandoned, exactly when its users and its delete fail; one limiter under the tag |
| NodeReload.ReplaceIsExact | node/reload.go:39-73 | what the core holds, the tag, the limiter and nodeAdded after every outcome of a replacement |
| NodeReload.TruthfulUnlessMisled | node/reload.go:32-73 | from any truthful state nodeAdded tells the truth after a replacement if and only if it was not misled |
| NodeReload.RunsExactly | node/reload.go:39-138 | from any truthful state, what the core runs after a replacement is what the controller says if and only if it was not misled and no abandoned node has another configuration or other users; a failed delete changes nothing |
| NodeReload.ReplacedPutBackOrDown | node/reload.go:39-73 | when deletes after failed users work, the core ends with the new configuration, the previous one under its previous tag with the same users, or nothing |
| NodeReload.TwoNodesRun | node/reload.go:51-72 | a replacement that leaves two nodes of one controller running |
| NodeReload.OnlyTheAbandonedRuns | node/reload.go:51-72 | one after which nodeAdded speaks of a tag no node has, while the abandoned one runs |
| NodeReload.ReconcileIsExact | node/task.go:57-95 | from any truthful state: what a reconciliation leaves, for every outcome; a configuration that is skipped is the one that runs exactly if the controller's was |
| NodeReload.SkippedWhileAnotherRuns | node/task.go:57-61 | an abandoned configuration of a named node runs while the controller takes the previous one for it and skips that |
| NodeReload.DiffIsExact | node/task.go:99-143 | a change of users in place works exactly on a running node whose core takes it, and touches nothing but its users; a failure keeps list and limiter |
| NodeReload.StepKeepsLimiter | node/controller.go:94-138 | every configuration and every list, whatever fails, keeps one limiter under the tag with the controller's users |
| NodeReload.StaleStays | node/reload.go:39-73 | an abandoned node under another tag is never deleted by a later event |
| NodeReload.StepIsExact | node/controller.go:94-138 | one event that does not mislead: exactly when configuration and users of what runs are the controller's |
| NodeReload.RunIsExact | node/controller.go:94-138 | over any configurations and lists from any truthful state: nodeAdded tells the truth at the end if and only if no event misled it, and exactly when configuration and users of what runs are the controller's |
| NodeReload.WorkingKeepsAll | node/controller.go:94-138 | events whose deletes after failed users and changes of users work mislead nothing and keep both |
| NodeReload.Controller.AddCoreNode | node/reload.go:142-157 | added exactly when the tag is free and one of at most four attempts works after others that found the address in use |
| NodeReload.Controller.Replace | node/reload.go:39-73 | afterwards nodeAdded tells whether the core runs exactly one node of this controller, under its tag, if and only if it was not misled: the new node's users and its delete fail, and a previous configuration of another tag is put back |
| NodeReload.Controller.Reconcile | node/task.go:57-95 | a configuration equal to the controller's is skipped exactly while nodeAdded holds, and its user list is then changed in place; from any truthful state, what each outcome leaves, whether the skipped configuration is the one that runs, and exactly when the limiter has the current users |
| NodeReload.Controller.Follow | node/controller.go:94-138 | over any configurations and user lists: the exact conditions under which nodeAdded tells the truth and the core runs what the controller says; the limiter always has its users |
| UserDiff.KeyIsExact | node/user.go:176-181 | without NUL in the fields, equal keys are equal users up to the id |
| UserDiff.TableHasTheUsers | limiter/limiter.go:44-72 | the table of a list has the id and limits of every user of it, and no other row |
| UserDiff.NulKeepsTheWrongUser | node/user.go:153-181 | with a NUL in a field a list is compared as unchanged and the table keeps a user that is gone |
| UserDiff.RowAt | limiter/limiter.go:90-113 | the row of each uuid after deleting and adding |
| UserDiff.ChangedIdIsLost | node/user.go:153-181 | a kept user whose id changed stays in the table under the old id |
| UserDiff.DiffIsRebuild | node/task.go:99-133 | for lists without a repeated uuid, deleting then adding gives the rebuilt table if and only if the users that are not added have their rows from users that are not deleted, and those are all in the new list |
| UserDiff.IndexKeys | node/user.go:154-158 | where each key last occurs |
| UserDiff.Match | node/user.go:160-167 | takes the new keys out of the index; keys not, or no longer, there are new |
| UserDiff.CompareUserList | node/user.go:153-174 | for any two lists: added are the users whose key the old list lacks or that repeat one, deleted the last of each key that the new list lacks, in every map order |
| UserDiff.ComparedIsRebuild | node/user.go:153-174 | with what the comparison gives, if and only if the two lists keep their rows (Keeps) |
| UserDiff.CleanKeeps | node/user.go:153-181 | for users without NUL that is: the users that stay keep their ids |
| UserDiff.Limiter.constructor | limiter/limiter.go:44-72 | the table built for a list |
| UserDiff.Limiter.UpdateUser | limiter/limiter.go:90-113 | deletes, then adds; ids follow the table, and deleted users' alive counts go |
| UserDiff.NodeUsers.ApplyUserDiff | node/task.go:99-143 | on success the limiter has the rebuilt table exactly when the lists keep their rows, and the core has it but for the users that earlier failures lost; on failure list and limiter are unchanged and what the core misses is what was deleted |
| UserDiff.NodeUsers.constructor | node/controller.go:206-232 | a started node: core and limiter have the list's table |
| UserDiff.NodeUsers.ChangeCore | node/task.go:100-127 | deletes, then adds; what was deleted before a failure stays deleted |
| UserDiff.LostAreMissing | node/task.go:99-143 | after a success the core's rows are the rebuilt ones without those that count as unchanged but were deleted before |
| UserDiff.RetryLosesNobody | node/task.go:99-143 | trying the same list again loses nobody |
| UserDiff.GoingBackLosesTheDeleted | node/task.go:99-143 | going back to the old list after a failed addition leaves the deleted user out of the core |
| UserDiff.NodeUsers.KeepTrying | node/task.go:99-143 | the same list until it works: core and limiter both have the rebuilt table |
| UserDiff.NodeUsers.Follow | node/task.go:99-143 | over any lists that keep their rows the limiter stays the one a rebuild gives, for the last list that was applied |
| AliveList.OpenAfterPage | api/agent/dataplane_alive.go:65-68 | a page goes on with the open run of its session and revision, or opens one |
| AliveList.OpenAfterEnd | api/agent/dataplane_alive.go:101-105 | the end of a session breaks its own run only |
| AliveList.NoneAfterLast | api/agent/dataplane_alive.go:83-84 | a last page closes its run |
| AliveList.AfterPage | api/agent/dataplane_alive.go:79-94 | a last page puts its run in force unless it is over the bound; any other page leaves the list |
| AliveList.FoldIsLast | api/agent/dataplane_alive.go:69-78 | a user has the count of its last entry with a user and a count, and no other user is in the list |
| AliveList.OverExactly | api/agent/dataplane_alive.go:69-78 | the bound trips exactly when an entry with a user and a count comes to a full list |
| AliveList.RepeatTripsTheBound | api/agent/dataplane_alive.go:73-76 | in a full list an entry of a user that is already in it trips the bound |
| AliveList.DataPlane.constructor | api/agent/dataplane_alive.go:41-56 | no list yet |
| AliveList.DataPlane.Take | api/agent/dataplane_alive.go:69-78 | the entries with a user and a count, later ones winning, or over the bound |
| AliveList.DataPlane.Receive | api/agent/dataplane_alive.go:59-97 | for every stream of pages and session ends the list is that of the latest unbroken run ending in a last page within the bound, and the buffer is the open run |
| AliveList.DataPlane.SessionStarted | api/agent/dataplane.go:428-449 | a new session changes neither the buffer nor the list |
| AliveList.DataPlane.SessionEnded | api/agent/dataplane.go:451-465 | the end of the connected session drops what it did not finish and leaves the list in force; the end of any other session is ignored |

## Left out

- Signatures, digests, TLS, certificates, enrollment and archive reading: "verified" and "unpacks" are inputs.
- JSON, protobuf and command texts: only their effect on records, maps and sets is kept.
- Health texts, error texts and timestamps of plugin records; secret staging is a choice that may fail, also after the record changed.
- The plugin's files on disk besides the record: writing and restoring configurations, sockets and secrets are steps that work or fail. What becomes of plugin processes when the Agent dies.
- Several plugins at once: the Supervisor is modelled at one plugin's id, other plugins only as writes of the shared file.
- Configure: a disabled plugin's new hash stays in memory when only the state write failed, as the code has it, so a failed configure is not claimed to change nothing.
- RollbackConfiguration: may start the old version while a cleanup is pending, as the code does; only version-changing updates are claimed not to.
- Maintain: whether to restart is an input, never heeded while a cleanup is pending; the maintenance store is not part of this model.
- Fields of the control stream that do not decide whether an operation runs: acknowledgement texts, metrics and heartbeats. Which answer the completed cache gives a duplicate is any, so its evictions are covered; the cache itself is Client.
- A wanted set that changes between admit, relay and dial of one round: each round has one wanted set.
- SetLinkRoutes: a table that names one user twice (two links with one key) is taken as the later entry.
- Manager.Apply of AnxPlan: the socket buffers, which are only logged; the next port of fake-TCP dial-backs, which the code does not check either.
- Routes: the peers by egress (transportPeers) are an input, after name resolution, and so is what the library's sort makes of the ids.
- RouteApply: default routes are replaced on every run; the listing's prefix lengths are not modelled, and packets are told apart by the prefixes of the rules.
- Multipath: the backup action's kernel flags; only the delete action's endpoints are modelled.
- The kernel package of an upgrade is one step that works or fails; whether two version texts name one release (SameAgentVersion, in another module) is any relation that only identifies tags that parse alike.
- A cleanup that is owed is forgotten when the Agent dies before the record that says so could be written, as the code has it.
- Upgrade.OnlyRollbackGoesDown: is about binaries that print no release tag but their own version; which words a release prints is not part of this model.
- NodeReload: alive lists, traffic maps and intervals, and starting a controller for the first time. User lists are told apart as the comparison does; UserDiff is about the comparison.
- ApplyUserDiff: lists have distinct uuids, as the property says; a core call that fails is taken to change nothing.
- limiter.CheckLimit, token buckets and dynamic limits.
- The hand-over of a complete alive list to its applier, and its revision as a metric.
- kernelfwd, forward, realityprobe, diagnostic, cmd and conf.
