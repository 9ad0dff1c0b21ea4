# Verified models of the workflow server's stateful core

Dafny models of the parts of this n8n fork whose behaviour depends on order, on interleaving or on feedback, with
proofs of what they keep over every run. `dafny verify dfyconfig.toml` checks all of it.

**Credential overwrites.** `CredentialTypes` models the worklist that appends to the array it iterates;
`ParentTypeChains` counts the repetitions this makes. `CredentialsOverwrites` models resolution in place with its memo,
the lookup that merges again, and the save/load pair. The invariant is that every stored entry lies between the original
one and the fully inherited one; from it follows that `get` is "the nearest ancestor that defines the key wins", in any
iteration order and after any number of reloads. For several parents per type the same invariant gives the exact set of
keys and a candidate for each value, and `CredentialPrecedence` shows where the two merges disagree. `CredentialStorage`
gives the stored table itself, for every order.

**Credential repair.** `CredentialRepair` compares the two-cache pass over a workflow with a resolver that has no cache.
They agree if and only if no reference follows an unresolvable one of the same type and id under another name.
`CredentialCacheKeys` adds that the caches are plain objects: they agree if and only if, besides, no name or id looked
up is a key of the object prototype.

**Execution resume.** `ConcurrencyQueue` is the capacity queue, `ActiveExecutions` one process as a state machine in
which every `await` ends a step, `ActiveExecutionsService` its methods, `Incarnations` what a resumed execution and the
one it replaced can do to each other, `ResumeProtocol` any number of processes over one executions table with its
conditional update, `CrossedFinalize` one run of it, `ParentResume` the data
a parent is resumed with, and `WaitTracker` the timers that start resumes.

**The SLVSS loop.** `Veri3fy`, `ScalingEngine` and `LearningCore` are its parts, `SLVSSRunner` the loop closed over
them: the verdict of a tick enters the average that the next tick verifies.

**Allocators, queues, timeouts.** `PAXRuntime` allocates agents across an await, `ActivationRetry` retries activations,
`Deadlines` covers nested and resumed timeouts, `Deduplication` the key lookup.

## What the proofs found

Each comes with its exact condition, the last on credentials excepted, and, where it takes a run to get there, with
such a run.

- Removing a queued execution also releases the next one (packages/cli/src/concurrency/concurrency-queue.ts:45-55). The
  limit is kept throughout a run if and only if no removal is made while another execution waits too:
  `KeepsLimitThroughoutIff`, `CrowdedRemovalPassesLimit`.
- A run that goes to wait saves its row before it finalizes its execution by id, so a resume in between is settled in
  its place: the entry of the new run is deleted while it runs, and the unit of the old one is never given back. A run
  settles its own incarnation if and only if that is still the registered one: `FinalizeSettlesIff`,
  `FinalizeThenHandler`, `FinalizeDropsNewRun`.
- Stopping an execution whose status is already waiting loses its capacity unit for good: `StopWhileWaitingLosesUnit`,
  `StoppedWaiterKeepsUnit`.
- A child's write, or a timer's read, may cross into the parent's next waiting episode. An episode is safe if and only
  if nothing stale is about to be written or handed over: `FaithfulIffNothingStale`, `LateWriteCrossesEpisodes`,
  `LateReadCrossesEpisodes`.
- A stepdown leaves tracked executions that no later poll arms again: `DeadIff`, `DeadIsNeverRearmed`,
  `StepdownLosesTimer`. An execution has one armed timer at most if and only if no poll finds it without an entry and
  with a timer: `WaitTracker.AtMostOneThroughoutIff`, `StartedByChildArmsTwo`.
- A workflow has one armed retry timer at most if and only if it is never queued past a stray one and no retry of it
  fails while one is armed: `ActivationRetry.AtMostOneThroughoutIff`, `RequeueDuringRetryArmsTwo`,
  `RequeueAfterDropArmsTwo`.
- Every run gives the execution's row a new start time (packages/cli/src/workflow-runner.ts:274,
  packages/@n8n/db/src/repositories/execution.repository.ts:368-374), so from the second resume on the hard stop moves
  later, although the comment at packages/cli/src/workflow-runner.ts:324-326 has it relative to the first start:
  `CarryingResumeMovesHardStopIff`, `SecondResumeMovesHardStop`. A maximum timeout of 0 or less switches timeouts off:
  `TimeoutInForceIff`.
- An agent whose route throws stays busy for ever, and counts against every later route: `RefusedIffExhausted`,
  `ThrowStrandsCrew`.
- A reference named like a member of every object is never looked up: `ObjectCachesAgreeIff`,
  `ConstructorIsNotResolved`.
- What is stored, unlike what `get` returns, depends on the iteration order, even with one parent per type; where
  parents come first it is fully merged: `StoredExactly`, `StoredDependsOnOrder`, `ParentsFirstStoresNearest`.
- With several parents per type, even `get` depends on the iteration order of one and the same table:
  `GetDependsOnOrder`; where all ways up agree on a key it does not: `UnambiguousIsStable`.
- A pattern memory smaller than ten is not bounded by its size: `FullMemoryBoundedIff`, `SmallMemoryGrows`.
- Three stale ticks among the first five lock the loop out for ever: `WarmUpDecides`, `LockOutIsAbsorbing`.

One hypothesis stays: `NoDoubleRun` supposes that nothing but the run itself makes the row of a running execution
waiting. That is so in the code modelled, where recovery, cancelling and progress saves write other statuses;
`WaitingRowAdmitsSecond` says what depends on it.

## Model

| member | source | states |
|---|---|---|
| CredentialTypes.GetParentTypes | packages/cli/src/credential-types.ts:26-38 | the loop over the array it extends terminates on every acyclic registry and computes `ParentTypes` |
| CredentialTypes.ParentTypesFixpoint | packages/cli/src/credential-types.ts:31-37 | the array is the only one that equals the `extends` array followed by the parent types of its own elements, appended ones included |
| CredentialTypes.ExpandLosesWeight | packages/cli/src/credential-types.ts:33-35 | walking a stretch of the array pushes exactly its length less in weight than it consumes: why the loop ends |
| CredentialTypes.ParentTypesAreAncestors | packages/cli/src/credential-types.ts:23-38 | a type is returned if and only if it is in the transitive closure of `extends` |
| CredentialTypes.ReachedOnlyThroughComesLater | packages/cli/src/credential-types.ts:31-37 | a type that can only be reached through `a` is never returned before `a` |
| ParentTypeChains.NearestFirst | packages/cli/src/credential-types.ts:31-37 | on a chain every occurrence of an ancestor follows one of each nearer ancestor |
| ParentTypeChains.CatalanOccurrences | packages/cli/src/credential-types.ts:31-37 | on a chain the ancestor at distance d is returned exactly Catalan(d - 1) times |
| CredentialsOverwrites.ResolveBetween | packages/cli/src/credentials-overwrites.ts:158-188 | whatever the memo holds, a resolved entry has all original keys of its type and otherwise only inherited ones |
| CredentialsOverwrites.StoredBetween | packages/cli/src/credentials-overwrites.ts:102-115 | for every iteration order the stored table lies between the original and the fully inherited one |
| CredentialsOverwrites.MergeLooksUpFirst | packages/cli/src/credentials-overwrites.ts:190-197 | reverse, map, filter and reduce give each key the value of the first type in the list that has it; repetitions change nothing |
| CredentialsOverwrites.GetDefinesExactly | packages/cli/src/credentials-overwrites.ts:190-197 | `get` returns exactly the keys that the type or an ancestor originally defines, for any acyclic inheritance |
| CredentialsOverwrites.GetIsCandidate | packages/cli/src/credentials-overwrites.ts:190-197 | each value is that of a nearest definer along some way up, for any acyclic inheritance |
| CredentialsOverwrites.GetIsNearest | packages/cli/src/credentials-overwrites.ts:190-197 | with one parent per type, `get` gives each key the value of the nearest definer |
| CredentialsOverwrites.OrderDoesNotMatter | packages/cli/src/credentials-overwrites.ts:102-197 | the result of `get` after `setPlainData` is the same for any two iteration orders |
| CredentialsOverwrites.ReloadsPreserveGet | packages/cli/src/credentials-overwrites.ts:56-95 | saving the mutated table and loading it again, any number of times, leaves every `get` unchanged |
| CredentialStorage.StoredExactly | packages/cli/src/credentials-overwrites.ts:102-115 | the stored table itself, for every iteration order, with one parent per type: a type keeps its original entry if it is not recognised or a descendant had its turn before, and is otherwise merged with what its ancestors contribute, those reached before with what is stored for them |
| CredentialStorage.ParentsFirstStoresNearest | packages/cli/src/credentials-overwrites.ts:102-188 | where the order lists parents before children, and all types and their ancestors are recognised and have entries, every stored entry is the fully inherited one |
| CredentialStorage.ResolvedIsStored | packages/cli/src/credentials-overwrites.ts:159-162 | after `setPlainData`, `getOverwrites` answers for each recognised type of the table with its stored entry |
| CredentialsOverwrites.FillingTwiceIsFillingOnce | packages/cli/src/credentials-overwrites.ts:139-156 | applying overwrites to data that already has them changes nothing |
| CredentialsOverwrites.FillsOnlyWhatIsEmpty | packages/cli/src/credentials-overwrites.ts:146-155 | a key that is missing, null, undefined or the empty text takes the overwrite; any other text or value stays |
| CredentialsOverwrites.FillUnset | packages/cli/src/credentials-overwrites.ts:146-155 | the loop fills exactly the keys that are null, undefined or empty, in any order of keys |
| CredentialsOverwrites.CredentialsOverwritesService.GetOverwrites | packages/cli/src/credentials-overwrites.ts:158-188 | the memoising recursion computes `Resolve` and extends the memo by it; `ResolvedIsStored` says what a memoised type answers |
| CredentialsOverwrites.CredentialsOverwritesService.SetPlainData | packages/cli/src/credentials-overwrites.ts:102-115 | mutates the table it is given into `Stored`, which `StoredExactly` determines; every `get` then has the defined keys, candidate values and, with one parent per type, the nearest value |
| CredentialsOverwrites.CredentialsOverwritesService.SetData | packages/cli/src/credentials-overwrites.ts:117-130 | what is saved is the table after the mutation, and only when persistence is on |
| CredentialsOverwrites.CredentialsOverwritesService.LoadOverwriteDataFromDB | packages/cli/src/credentials-overwrites.ts:56-76 | resolves the saved table again, does not save, and does nothing without a saved table |
| CredentialsOverwrites.CredentialsOverwritesService.ApplyOverwrite | packages/cli/src/credentials-overwrites.ts:139-156 | the data with its unset keys filled from `get` |
| CredentialPrecedence.UnambiguousIsStable | packages/cli/src/credentials-overwrites.ts:102-197 | with several parents, where all ways up agree on a key, order and reloads leave its value alone |
| CredentialPrecedence.StableThoughAmbiguous | packages/cli/src/credentials-overwrites.ts:190-197 | agreement is not needed: two parents disagree, and every order shows the first one while the child has no entry |
| CredentialPrecedence.StoredDependsOnOrder | packages/cli/src/credentials-overwrites.ts:108-114 | on a chain of three, two iteration orders store different entries of the middle type if and only if the top one defines a key that the middle one does not |
| CredentialPrecedence.MemoisedIsFrozen | packages/cli/src/credentials-overwrites.ts:159-162 | once a type is memoised its stored entry no longer changes |
| CredentialPrecedence.TwoParentsFlip | packages/cli/src/credentials-overwrites.ts:158-197 | with two parents that disagree, giving the child an unrelated entry flips which parent is seen |
| CredentialPrecedence.GetDependsOnOrder | packages/cli/src/credentials-overwrites.ts:102-197 | with two parents, one of which inherits the key and the other defines it, two iteration orders of one table show different values |
| CredentialRepair.RepairReference | packages/cli/src/workflow-helpers.ts:127-210 | one reference, with both caches and the queries sent |
| CredentialRepair.RepairReferences | packages/cli/src/workflow-helpers.ts:126-210 | the inner loop over the credentials of a node |
| CredentialRepair.OldStyleMeans | packages/cli/src/workflow-helpers.ts:129-160 | alone, a bare name or one without id becomes the row of its type with that name if there is exactly one, and otherwise stays |
| CredentialRepair.NewStyleMeans | packages/cli/src/workflow-helpers.ts:163-209 | alone, an id of the type wins and takes the name of its row; without one the name decides, and if it does not the reference stays |
| CredentialRepair.RunNodesAt | packages/cli/src/workflow-helpers.ts:117-126 | node by node: disabled nodes and those without credentials are unchanged, and any other keeps its types in order |
| CredentialRepair.EnabledNodesAreRepaired | packages/cli/src/workflow-helpers.ts:110-214 | with ids used consistently, each reference of an enabled node reads as it resolves alone |
| CredentialRepair.OneNamePerIdIsEnough | packages/cli/src/workflow-helpers.ts:110-214 | so it does when no two references of enabled nodes share type and id under different names |
| CredentialRepair.ReplaceInvalidCredentials | packages/cli/src/workflow-helpers.ts:110-214 | repairs the nodes in place, and is the pass that `RunNodesAt` and `EnabledNodesAreRepaired` describe node by node; with consistent ids the result reads as if each reference had been resolved alone |
| CredentialRepair.RepairAgreesIff | packages/cli/src/workflow-helpers.ts:110-214 | with caches that are maps, the cached pass and the uncached resolver agree if and only if no reference follows an unresolvable one of its type and id under another name |
| CredentialRepair.OneNamePerIdIsConsistent | packages/cli/src/workflow-helpers.ts:110-214 | one name per type and id is enough for that |
| CredentialRepair.RunExpected | packages/cli/src/workflow-helpers.ts:114-210 | after any stretch the nodes and the caches hold exactly what the references so far imply |
| CredentialRepair.RepairIsIdempotent | packages/cli/src/workflow-helpers.ts:110-214 | repairing a repaired workflow changes nothing, consistent ids or not |
| CredentialRepair.OldStyleLookedUpOnce | packages/cli/src/workflow-helpers.ts:129-160 | a name without id is looked up at most once per type |
| CredentialCacheKeys.ObjectsAreMaps | packages/cli/src/workflow-helpers.ts:114-116 | while no name or id looked up is a key of the object prototype, the caches behave as maps |
| CredentialCacheKeys.MemberIffKey | packages/cli/src/workflow-helpers.ts:132-170 | a node gets a member of the prototype if and only if its reference has such a key |
| CredentialCacheKeys.ObjectCachesAgreeIff | packages/cli/src/workflow-helpers.ts:110-214 | with caches that are objects, every node holds what resolving alone gives if and only if ids are used consistently and no such key is looked up |
| CredentialCacheKeys.ConstructorIsNotResolved | packages/cli/src/workflow-helpers.ts:132-158 | a credential named "constructor" is never looked up |
| ConcurrencyQueue.AccountsMeans | packages/cli/src/concurrency/concurrency-queue.ts:13-43 | while a call waits every slot is in use, and the calls let through exceed the limit by `Excess` at most |
| ConcurrencyQueue.RemoveKeepsLimitIff | packages/cli/src/concurrency/concurrency-queue.ts:45-55 | a removal keeps the limit if and only if the execution was not queued or nothing else was |
| ConcurrencyQueue.LimitOverRuns | packages/cli/src/concurrency/concurrency-queue.ts:22-75 | over every run the limit is passed by at most the number of crowded removals, and no slot idles while a call waits |
| ConcurrencyQueue.KeepsLimitThroughoutIff | packages/cli/src/concurrency/concurrency-queue.ts:22-75 | the limit is kept throughout a run if and only if no removal in it was crowded |
| ConcurrencyQueue.CrowdedRemovalPassesLimit | packages/cli/src/concurrency/concurrency-queue.ts:45-55 | a run of four calls from a fresh queue that passes the limit |
| ConcurrencyQueue.FirstQueuedFirstLetThrough | packages/cli/src/concurrency/concurrency-queue.ts:22-75 | over every run, whoever waits came after everyone that has been let through and not released yet |
| ConcurrencyQueue.RemoveTakesFirst | packages/cli/src/concurrency/concurrency-queue.ts:45-55 | a removal takes the first waiting call of the execution out, drops no other, and gives one unit back |
| ConcurrencyQueue.ConcurrencyQueueService.EnqueueCall | packages/cli/src/concurrency/concurrency-queue.ts:22-33 | takes a unit; the call proceeds if and only if there was one, and is queued otherwise |
| ConcurrencyQueue.ConcurrencyQueueService.DequeueCall | packages/cli/src/concurrency/concurrency-queue.ts:39-43 | gives a unit back and lets the first queued call through |
| ConcurrencyQueue.ConcurrencyQueueService.RemoveCall | packages/cli/src/concurrency/concurrency-queue.ts:45-55 | takes a queued call out, gives its unit back, and lets the first queued call through |
| ActiveExecutions.StepKeepsInv | packages/cli/src/active-executions.ts:62-161 | every step of any call of `add`, settle handler, stop or finalize keeps registry, capacity accounting and single release |
| ActiveExecutions.UnitsHeld | packages/cli/src/active-executions.ts:68-161 | in every reachable state the units taken are those of calls past `reserve`, calls let through towards it, and incarnations whose handler has not run; no reservation is released twice |
| ActiveExecutions.StopOutcome | packages/cli/src/active-executions.ts:193-220 | stopping a waiting execution takes entry and response mode away, finalized or not; any other keeps both and is settled; no other execution is concerned |
| ActiveExecutions.RecordOutcome | packages/cli/src/active-executions.ts:223-292 | a status goes to the registered record alone, and finalizing settles that record and keeps its status |
| ActiveExecutions.HandlerOutcome | packages/cli/src/active-executions.ts:141-156 | the handler leaves entry and response mode of a waiting incarnation, and takes both away otherwise; its unit goes back in either case |
| ActiveExecutions.RegistrationOutcome | packages/cli/src/active-executions.ts:125-138 | the call is over, and its execution is registered under it as running and unsettled |
| ActiveExecutions.RejectedResumeLeavesNothing | packages/cli/src/active-executions.ts:109-123 | a resume that the database refuses leaves registry, calls and pool as they were before it |
| Incarnations.SupersededIsFrozen | packages/cli/src/active-executions.ts:130-138 | a replaced incarnation is never registered again, and its status and settlement never change |
| Incarnations.LateHandlerIsHarmlessIff | packages/cli/src/active-executions.ts:141-156 | at whatever later point it ran, the handler of a replaced incarnation leaves entry and response mode alone if and only if it was waiting when replaced, or the id has neither |
| Incarnations.ResumeSupersedes | packages/cli/src/active-executions.ts:126-138 | registering again replaces the incarnation and keeps its start time |
| Incarnations.StartTimeIsKept | packages/cli/src/active-executions.ts:130-138 | while an entry is kept its start time is that of the first incarnation, through any number of resumes |
| Incarnations.ReleasableIff | packages/cli/src/active-executions.ts:141-156 | an incarnation can still give its unit back if and only if it is settled or still registered |
| Incarnations.StopWhileWaitingLosesUnit | packages/cli/src/active-executions.ts:193-220 | stopping an unsettled execution leaves its unit releasable if and only if its status was not waiting |
| Incarnations.StoppedWaiterKeepsUnit | packages/cli/src/active-executions.ts:193-220 | a run from a fresh process after which a unit is taken for ever |
| Incarnations.FinalizeSettlesIff | packages/cli/src/active-executions.ts:223-242 | finalizing the execution of an incarnation settles it if and only if it is the registered one |
| Incarnations.FinalizeThenHandler | packages/cli/src/workflow-runner.ts:345-353 | after a run finalizes its execution, the id loses its entry if and only if the registered incarnation was not waiting, whosever it is, and the unit of the run itself can be given back if and only if it was its own |
| CrossedFinalize.FinalizeDropsNewRun | packages/cli/src/workflow-runner.ts:345-353 | a run of one process, from its start, in which the first run of an execution settles the second: that goes on without an entry, and the unit of the first stays taken for ever |
| ActiveExecutionsService.Service.Register | packages/cli/src/active-executions.ts:125-138 | the tail of `add`: entry replaced, start time taken over |
| ActiveExecutionsService.Service.OnSettled | packages/cli/src/active-executions.ts:141-156 | the settle handler: release, then delete unless waiting |
| ActiveExecutionsService.Service.ReleaseCapacity | packages/cli/src/concurrency/concurrency-capacity-reservation.ts:30-36 | a unit goes back only for a reservation that took one, while control is enabled |
| ActiveExecutionsService.Service.StopExecution | packages/cli/src/active-executions.ts:193-220 | is the `Stop` of `StopOutcome`: waiting executions are removed, settled or not, and others are told to end |
| ActiveExecutionsService.Service.FinalizeExecution | packages/cli/src/active-executions.ts:223-242 | settles the registered incarnation, if any |
| ActiveExecutionsService.Service.SetExecutionStatus | packages/cli/src/active-executions.ts:290-292 | changes the status of the registered incarnation, and fails without one |
| ActiveExecutionsService.Service.Shutdown | packages/cli/src/active-executions.ts:307-328 | is a run of the state machine; cancelling, it leaves registered exactly what was not waiting, all of it told to end, and otherwise exactly what is neither waiting nor new |
| ResumeProtocol.NextKeepsInv | packages/cli/src/active-executions.ts:96-119 | every step of every process, and every other write of a row, keeps: one runner per execution and none while its row is waiting, unless reopened; resumes balanced by waits |
| ResumeProtocol.NoDoubleRun | packages/cli/src/active-executions.ts:109-118 | over every run of any number of processes, unless something else made its row waiting while it ran, no execution is run twice at once; and successful resumes never exceed the entries into waiting |
| ResumeProtocol.WaitingRowAdmitsSecond | packages/cli/src/active-executions.ts:109-118 | whoever runs an execution whose row is waiting can be joined by a second runner |
| ResumeProtocol.CompareAndSetDecides | packages/cli/src/active-executions.ts:109-118 | a resume runs if and only if the row says waiting, which it then says no longer; no other row changes |
| ResumeProtocol.StartDecides | packages/cli/src/active-executions.ts:115-119 | a new execution runs on if and only if setting its row running succeeds |
| ResumeProtocol.RefusedGivesBack | packages/cli/src/active-executions.ts:115-123 | a refused resume is registered nowhere and gives its unit back |
| ResumeProtocol.UnitsHeldEverywhere | packages/cli/src/active-executions.ts:115-123 | failed creates and lost resume races included, every process keeps its capacity accounting |
| ParentResume.ParentGetsAChildsOutput | packages/cli/src/workflow-helpers.ts:277-309 | in one waiting episode, under every interleaving, at most one resume succeeds; by a child or a timer it hands over the parent's data, at most with some child's output at the stack head, and by a child with an output always with one |
| ParentResume.ChildAlone | packages/cli/src/workflow-helpers.ts:277-309 | undisturbed, a child with an output resumes the parent with that output for the node it waits at, and all else as it was |
| ParentResume.SilentChildAlone | packages/cli/src/workflow-helpers.ts:277-309 | one without output, or with an empty stack to write to, resumes it with what it waits with |
| ParentResume.TimerAlone | packages/cli/src/wait-tracker.ts:97-132 | so does a timer |
| ParentResume.UpdateParentExecution | packages/cli/src/workflow-helpers.ts:277-309 | the update of a waiting parent with a stack changes the input at the stack head and nothing else; there is none otherwise; it is the step of the protocol |
| ParentResume.LateWriteCrossesEpisodes | packages/cli/src/wait-tracker.ts:147-167 | across episodes this fails: a run in which a late write replaces the data of the next episode |
| ParentResume.LateReadCrossesEpisodes | packages/cli/src/wait-tracker.ts:97-132 | so does a late read: a timer resumes the next episode with the data of the one before |
| ParentResume.FaithfulIffNothingStale | packages/cli/src/wait-tracker.ts:97-167 | every run of a waiting episode hands over faithful data, webhooks aside, if and only if no task of before is about to write or hand over anything else |
| WaitTracker.ArmedAtMostOncePlusOrphanings | packages/cli/src/wait-tracker.ts:59-99 | an execution has at most one armed timer more than it was started by others while its own was armed |
| WaitTracker.ArmsSecondIff | packages/cli/src/wait-tracker.ts:75-86 | an event gives an execution a second armed timer if and only if it is a poll that finds it without an entry and with a timer |
| WaitTracker.AtMostOneThroughoutIff | packages/cli/src/wait-tracker.ts:59-180 | an execution has at most one armed timer throughout a run if and only if no event of it is such a poll |
| WaitTracker.StartedByChildArmsTwo | packages/cli/src/wait-tracker.ts:97-99 | a run in which one execution has two armed timers |
| WaitTracker.DeadOnlyAfterStop | packages/cli/src/wait-tracker.ts:75-95 | without a stop of tracking every tracked execution has its timer armed |
| WaitTracker.StopLeavesDead | packages/cli/src/wait-tracker.ts:171-180 | a stop of tracking clears every tracked timer and keeps the entries |
| WaitTracker.DeadIsNeverRearmed | packages/cli/src/wait-tracker.ts:75-86 | an entry so left is never armed again by any later takeover or poll, until something starts or stops it |
| WaitTracker.DeadIff | packages/cli/src/wait-tracker.ts:59-180 | an event leaves a tracked execution without a timer if and only if it stops tracking, or there was none before and the event does not concern it |
| WaitTracker.StepdownLosesTimer | packages/cli/src/wait-tracker.ts:170-180 | a run of takeover, stepdown, takeover and poll after which a waiting execution has no timer |
| WaitTracker.Tracker.StartTrackingNow | packages/cli/src/wait-tracker.ts:47-57 | sets the interval and polls at once |
| WaitTracker.StopOutcome | packages/cli/src/wait-tracker.ts:89-95 | a stopped execution is not tracked, and of its timers exactly those stay armed that the tracker had lost sight of |
| WaitTracker.StoppedHasOnlyStrays | packages/cli/src/wait-tracker.ts:59-99 | after any run that ends in its stop, an execution has at most as many armed timers as it was started by others while its own was armed |
| WaitTracker.FireOutcome | packages/cli/src/wait-tracker.ts:75-99 | a timer that fires is gone, and its execution is tracked no more; no other is concerned |
| WaitTracker.PolledOutcome | packages/cli/src/wait-tracker.ts:59-86 | after a poll exactly the executions tracked before and those answered are tracked, new ones with an armed timer |
| WaitTracker.Tracker.StartExecution | packages/cli/src/wait-tracker.ts:97-99 | drops the entry and leaves its timer |
| WaitTracker.Tracker.SetTimers | packages/cli/src/wait-tracker.ts:75-86 | the loop over a poll's answer arms a timer for each execution that has no entry |
| WaitTracker.Tracker.StopExecution | packages/cli/src/wait-tracker.ts:89-95 | clears timer and entry together |
| WaitTracker.Tracker.StopTrackingNow | packages/cli/src/wait-tracker.ts:171-180 | clears the interval and the tracked timers only |
| Veri3fy.DefaultVerdict | sovereignty/loop/VERI3FY.ts:52-101 | with the default configuration a payload passes if and only if all stages hold, if and only if it scores 1; a failure scores 0.70 at most |
| Veri3fy.ScoreIsPoints | sovereignty/loop/VERI3FY.ts:60-84 | the score adds up the stages that were run and met |
| Veri3fy.StrictPassesIff | sovereignty/loop/VERI3FY.ts:52-90 | a strict verdict, or one of fewer stages, is a pass if and only if every stage run is met and the threshold is 1 at most |
| Veri3fy.LenientPassesIff | sovereignty/loop/VERI3FY.ts:78-90 | a lenient one of three stages, for thresholds over 0.35 up to 0.65, if and only if two of them are met |
| Veri3fy.MetIffNothingFound | sovereignty/loop/VERI3FY.ts:106-203 | each stage is met if and only if none of its thirteen issues is there, a negative return aside |
| Veri3fy.UnsureFails | sovereignty/loop/VERI3FY.ts:185-188 | past the warm-up a low average fails with 0.65 at most, whatever else the payload holds |
| Veri3fy.Verifier.Verify | sovereignty/loop/VERI3FY.ts:52-101 | returns the verdict of the three stage predicates, counts it, and reports exactly the issues of the stages it runs |
| Veri3fy.Verifier.Stage1 | sovereignty/loop/VERI3FY.ts:106-136 | accepts exactly `Syntax` and reports exactly the issues of its stage |
| Veri3fy.Verifier.Stage2 | sovereignty/loop/VERI3FY.ts:141-173 | accepts exactly `Logic` and reports exactly the issues of its stage, a negative return among them |
| Veri3fy.Verifier.Stage3 | sovereignty/loop/VERI3FY.ts:178-203 | accepts exactly `Sovereign` and reports exactly the issues of its stage |
| ScalingEngine.ScaleBoundedOverRuns | sovereignty/loop/ScalingEngine.ts:44-103 | over any call sequence scale stays between 1 and a representable maximum |
| ScalingEngine.OnlyRecentHistoryCounts | sovereignty/loop/ScalingEngine.ts:109-132 | with any history the step depends on its last ten entries and on no earlier streak |
| ScalingEngine.HistoryDecides | sovereignty/loop/ScalingEngine.ts:44-132 | growth, decay and boost read off the last entries themselves: so many passes last and 0.85, else three failures last, else every tenth iteration and 0.95 |
| ScalingEngine.LoopScales | sovereignty/loop/ScalingEngine.ts:53-90 | with the policy of the loop: a quarter more after two passes, a tenth less after three failures, half more on a boost, rounded and between 1 and 1024 |
| ScalingEngine.ScalingEngineService.Scale | sovereignty/loop/ScalingEngine.ts:44-103 | growth, else decay, else boost, and which streak is reset |
| ScalingEngine.ScalingEngineService.UpdateStreaks | sovereignty/loop/ScalingEngine.ts:109-132 | the backward loop finds the lengths of the latest runs of passes and of failures |
| SLVSSRunner.AllPass | sovereignty/loop/SLVSSRunner.ts:166-305 | fresh, on timely payloads and without exceptions, every tick for ever passes with score 1 |
| SLVSSRunner.QuietVerdict | sovereignty/loop/SLVSSRunner.ts:200-211 | without exceptions only a stale payload and lock-out make a tick fail |
| SLVSSRunner.LockedVerdict | sovereignty/loop/SLVSSRunner.ts:311-322 | a locked loop fails its next tick with 0.65 at most, whatever the tick meets |
| SLVSSRunner.LockOutIsAbsorbing | sovereignty/loop/SLVSSRunner.ts:200-224 | with three stages lock-out lasts for ever, and pass count and scale never change again |
| SLVSSRunner.Bistable | sovereignty/loop/SLVSSRunner.ts:166-305 | past the warm-up, of the ticks to come without exceptions none passes or every one that is not stale, and which is decided already and for ever |
| SLVSSRunner.WarmUpDecides | sovereignty/loop/SLVSSRunner.ts:207-224 | a run of five or more ticks without exceptions ends locked out if and only if at least three of the first five were stale; and how many have passed |
| SLVSSRunner.AllPassIffNoneStale | sovereignty/loop/SLVSSRunner.ts:166-305 | without exceptions every tick of a fresh run passes if and only if none is stale |
| SLVSSRunner.RunKeepsScored | sovereignty/loop/SLVSSRunner.ts:166-322 | over every run and configuration the averages stay in [0, 1], the scale in [1, 1024], the history at the last hundred |
| SLVSSRunner.CountsAddUp | sovereignty/loop/SLVSSRunner.ts:213-291 | passed and failed add up to the iterations plus the ticks that throw after their verdict |
| SLVSSRunner.TickCounts | sovereignty/loop/SLVSSRunner.ts:196-291 | what each tick counts, by its verdict and by the phase in which it throws |
| SLVSSRunner.TickRecords | sovereignty/loop/SLVSSRunner.ts:213-297 | the status it records: failed unless the verdict passed and nothing was thrown, scaled if and only if scaling was on and happened |
| SLVSSRunner.LimitHolds | sovereignty/loop/SLVSSRunner.ts:166-178 | with a limit the loop makes exactly that many ticks and stops at the next, and without one it never stops |
| SLVSSRunner.SwitchedOff | sovereignty/loop/SLVSSRunner.ts:216-260 | over every run, scaling, generation and learning from failures do nothing while switched off |
| SLVSSRunner.AllPassAddsUp | sovereignty/loop/SLVSSRunner.ts:243-260 | in a fresh all-pass run artifacts and returns are all added up and every tick is learned from |
| SLVSSRunner.PayloadAverages | sovereignty/loop/SLVSSRunner.ts:311-322 | the averages of the payload, times the iterations, are what the loop has counted |
| SLVSSRunner.VersionReads | sovereignty/loop/LearningCore.ts:178-184 | the version reads as the hundreds of ingests, from one, and the tens |
| SLVSSRunner.VersionIsVersioned | sovereignty/loop/LearningCore.ts:178-184 | every model version has the form the verifier demands |
| SLVSSRunner.ScaleFollowsCurve | sovereignty/loop/SLVSSRunner.ts:231-243 | in a fresh all-pass run the scale after n ticks is `Curve(n)` |
| SLVSSRunner.CurveShape | sovereignty/loop/ScalingEngine.ts:53-66 | that curve is 1 up to the second tick, rises strictly from the third, is 1024 first at the thirty-fourth and stays there |
| SLVSSRunner.Runner.Tick | sovereignty/loop/SLVSSRunner.ts:166-305 | one tick on the runner, its verifier and its scaling engine is `Step` |
| SLVSSRunner.Runner.Guarded | sovereignty/loop/SLVSSRunner.ts:196-290 | the guarded body with its catch, for an exception in any phase |
| SLVSSRunner.Runner.AfterPass | sovereignty/loop/SLVSSRunner.ts:226-269 | scaling, generation and learning, as far as the tick gets |
| SLVSSRunner.Runner.BuiltPayload | sovereignty/loop/SLVSSRunner.ts:311-322 | the payload summarises the loop's own counters |
| LearningCore.SightingsAddUp | sovereignty/loop/LearningCore.ts:55-109 | over every run the memory is bounded, weights lie in [0, 1], live and pruned sightings add up to the ingests, and improvement is never negative |
| LearningCore.WeightOfSightings | sovereignty/loop/LearningCore.ts:65-83 | over every run in which nothing fades and nothing is pruned, a success pattern seen n times weighs 0.6 and n - 1 success boosts, a failure pattern 0.4 and n - 1 penalties, and neither more than 1 |
| LearningCore.FadesGeometrically | sovereignty/loop/LearningCore.ts:159-163 | after m decays a weight is its original one times the rate to the power of m, within half a unit of rounding for each |
| LearningCore.OthersFadeOnce | sovereignty/loop/LearningCore.ts:62-92 | an ingest fades every other pattern once, while nothing is pruned |
| LearningCore.ImprovementOfIngest | sovereignty/loop/LearningCore.ts:68-89 | the improvement is the weight of a new pattern, and otherwise what the weight has risen since it faded |
| LearningCore.ImprovementIsWeight | sovereignty/loop/LearningCore.ts:94-99 | while nothing fades and nothing is pruned, the improvements add up to the weights |
| LearningCore.KindsAreCounted | sovereignty/loop/LearningCore.ts:94-97 | successes and failures are counted apart |
| LearningCore.PruneTakesWeakest | sovereignty/loop/LearningCore.ts:165-172 | pruning removes exactly a tenth of the memory size, nothing else is lost, and nothing removed outweighs what stays |
| LearningCore.PruneTakesOldest | sovereignty/loop/LearningCore.ts:165-172 | among equal weights the pruned patterns are the oldest |
| LearningCore.FullMemoryBoundedIff | sovereignty/loop/LearningCore.ts:85-92 | a full memory that meets a new pattern stays within its size if and only if that is ten or more |
| LearningCore.SmallMemoryGrows | sovereignty/loop/LearningCore.ts:85-92 | a memory smaller than ten grows by every new pattern, over every run of distinct ones |
| LearningCore.PredictionInRange | sovereignty/loop/LearningCore.ts:190-210 | the prediction lies in [0, 1], and its lower clamp is never needed |
| LearningCore.OnePatternPredicts | sovereignty/loop/LearningCore.ts:190-210 | one pattern predicts a half and its similarity, or a half less half of it for a failure, rounded and 1 at most |
| LearningCore.TotalsAddUp | sovereignty/loop/LearningCore.ts:196-204 | the weights and the pulls of several patterns add up |
| LearningCore.SimilarityMeans | sovereignty/loop/LearningCore.ts:196-204 | the similarity, times the length of the longer list, is the overlap |
| LearningCore.LearningCoreService.Ingest | sovereignty/loop/LearningCore.ts:55-109 | one ingest keeps memory size, weights and distinct patterns, never reports a negative improvement, and is `Ingested`, whose weights and counts the rows above determine |
| LearningCore.LearningCoreService.DecayPatterns | sovereignty/loop/LearningCore.ts:159-163 | every weight decays once |
| LearningCore.LearningCoreService.PruneWeakPatterns | sovereignty/loop/LearningCore.ts:165-172 | the loop of deletions removes the weakest tenth |
| LearningCore.LearningCoreService.Predict | sovereignty/loop/LearningCore.ts:190-210 | the accumulating loop with both clamps equals the prediction without the lower one |
| PAXRuntime.RunKeepsInv | packages/core/sovereignty/PAXRuntime.ts:132-216 | under every interleaving routes in flight hold distinct agents, an agent is idle exactly when free, and tasks, items and finished routes are one number |
| PAXRuntime.RefusedIffExhausted | packages/core/sovereignty/PAXRuntime.ts:136-138 | a route is refused if and only if routes in flight and stranded agents account for the whole crew |
| PAXRuntime.ThrowStrandsCrew | packages/core/sovereignty/PAXRuntime.ts:136-150 | a run after which nothing is in flight and every route is refused |
| PAXRuntime.Assign | packages/core/sovereignty/PAXRuntime.ts:185-208 | the first idle agent of the operation's role, else the first idle one; none only when none is idle |
| PAXRuntime.FreshAssignment | packages/core/sovereignty/PAXRuntime.ts:185-208 | on a fresh crew each operation goes to its place in the roster, or to the first agent if the crew ends before that |
| PAXRuntime.ExtractionsAddUp | packages/core/sovereignty/PAXRuntime.ts:146-179 | over every run the vault holds the confident extractions in order, and the total return is that of all of them |
| PAXRuntime.Runtime.BeginRoute | packages/core/sovereignty/PAXRuntime.ts:132-144 | the part of a route before its await: takes an idle agent, or is refused if and only if routes in flight and stranded agents are the whole crew |
| PAXRuntime.Runtime.FinishRoute | packages/core/sovereignty/PAXRuntime.ts:146-179 | the part after it: metrics and vault updated, and the agent it took is idle again with one more task |
| PAXRuntime.Runtime.AssignAgent | packages/core/sovereignty/PAXRuntime.ts:185-208 | the two loops find the agent of `Assign` |
| ActivationRetry.AtMostOneTimerUnlessRequeued | packages/cli/src/active-workflow-manager.ts:811-873 | over every run a workflow has at most one timer or running retry more than it was queued while a retry of it ran; without such a queueing an armed timer is the one its entry names |
| ActivationRetry.ArmsSecondIff | packages/cli/src/active-workflow-manager.ts:826-862 | an event gives a workflow a second armed timer if and only if it queues it past a stray one, or is the failure of a retry while there are an entry and an armed timer |
| ActivationRetry.AtMostOneThroughoutIff | packages/cli/src/active-workflow-manager.ts:811-882 | a workflow has at most one armed timer throughout a run if and only if no event of it is of these two kinds |
| ActivationRetry.RequeueAfterDropArmsTwo | packages/cli/src/active-workflow-manager.ts:691-711 | a run in which the trigger of an activated workflow fails before `add` does, and two timers are armed |
| ActivationRetry.DelayDoubles | packages/cli/src/active-workflow-manager.ts:827-845 | after k consecutive failures the delay is min(1000 * 2^k, 86400000) ms |
| ActivationRetry.QueueOutcome | packages/cli/src/active-workflow-manager.ts:853-863 | a queued workflow has a new timer, armed for a second, besides those its entry did not name or that already run |
| ActivationRetry.RemoveOutcome | packages/cli/src/active-workflow-manager.ts:868-873 | a removed workflow has no entry, and the armed timer the entry named is cleared and no other |
| ActivationRetry.SettleOutcome | packages/cli/src/active-workflow-manager.ts:811-846 | a retry that ends is gone; another timer is armed if and only if it failed and its workflow still has an entry, for twice the last delay up to a day |
| ActivationRetry.RequeueDuringRetryArmsTwo | packages/cli/src/active-workflow-manager.ts:843-861 | a run in which one workflow has two armed retry timers |
| ActivationRetry.ActivationQueue.AddQueuedWorkflowActivation | packages/cli/src/active-workflow-manager.ts:853-863 | drops the old entry and its timer, and arms the first one |
| ActivationRetry.ActivationQueue.RemoveQueuedWorkflowActivation | packages/cli/src/active-workflow-manager.ts:868-873 | drops the entry and clears its timer |
| ActivationRetry.ActivationQueue.RemoveAllQueuedWorkflowActivations | packages/cli/src/active-workflow-manager.ts:878-882 | drops every entry and clears every entry's timer, in any order |
| ActivationRetry.ActivationQueue.RetryFailed | packages/cli/src/active-workflow-manager.ts:825-846 | doubles the delay up to the maximum and arms again, if there is still an entry |
| Deadlines.DeadlineIsLeast | packages/cli/src/workflow-execute-additional-data.ts:319-330 | at any depth of nesting the deadline is the least of all those set along the chain, and there is none where none is set |
| Deadlines.ChildNeverOutlivesAncestor | packages/cli/src/workflow-execute-additional-data.ts:319-330 | no sub-workflow has a later deadline than one it is nested in |
| Deadlines.SubworkflowTimeout | packages/cli/src/workflow-execute-additional-data.ts:319-330 | one level of inheritance: the own limit and the parent's deadline, whichever is earlier, where there is an own limit |
| Deadlines.OneLevel | packages/cli/src/workflow-execute-additional-data.ts:319-330 | without an own limit the parent's deadline, whatever it is; with one the earlier of both, a parent's deadline of 0 being none |
| Deadlines.CarriedHardStop | packages/cli/src/workflow-runner.ts:321-343 | a resume that carries a start time is stopped when the timeout has passed since the start of the run before it, or at once; at or before the soft stop if and only if it was prepared within the timeout |
| Deadlines.FirstResumeKeepsHardStop | packages/cli/src/workflow-runner.ts:321-343 | the first resume that carries a start time moves the hard stop no later than the present |
| Deadlines.CarryingResumeMovesHardStopIff | packages/cli/src/workflow-runner.ts:274-343 | a resume that carries a start time moves the hard stop later than the present and the run before if and only if that carried one too, started after the run before it, and is still within its timeout; the first resume never does |
| Deadlines.FreshResumeMovesHardStopIff | packages/cli/src/workflow-runner.ts:321-343 | one that carries none does if and only if time has passed since the timer of the run before was set, or since the start time that run carried |
| Deadlines.SecondResumeMovesHardStop | packages/cli/src/workflow-runner.ts:274-343 | a start and two resumes with hard stops at ten, ten and fifteen seconds |
| Deadlines.TimeoutInForceIff | packages/cli/src/workflow-runner.ts:234-238 | there is a timeout if and only if limit and configured maximum are both positive |
| Deadlines.LeastOfLimitAndMaximum | packages/cli/src/workflow-runner.ts:234-343 | what is in force lasts the setting, else the default, or the maximum, whichever is least; from preparation for the soft stop, from a carried start for the hard one, though never before the timer is set |
| Deadlines.NestedWithinSoftStop | packages/cli/src/workflow-runner.ts:257-263 | sub-workflows of any depth end no later than the soft stop of the run they are in |
| Deadlines.ScheduleTimeout | packages/cli/src/workflow-runner.ts:234-343 | the arithmetic of `runMainProcess`, with its two clock readings, arrives at these instants |
| Deduplication.OnePerKey | packages/core/src/data-deduplication-service.ts:66-84 | for each key of the input the outputs hold exactly one item: the last input item with that key, on the side its key was answered |
| Deduplication.NothingElse | packages/core/src/data-deduplication-service.ts:81-84 | every output is an input item, and there are as many as distinct keys |
| Deduplication.ItemLookup | packages/core/src/data-deduplication-service.ts:68-72 | the reduction maps each key of the items to the last item that has it |
| Deduplication.SameKeyIff | packages/core/src/data-deduplication-service.ts:68-72 | items share a key if and only if their values have one JSON text, or both have none |
| Deduplication.CheckProcessedItemsAndRecord | packages/core/src/data-deduplication-service.ts:59-85 | the deduplicator is asked about exactly the keys, and a partition of them is turned into their last items |

## Left out

- Scores, averages and weights are exact: floating-point rounding is not modelled, only the rounding to four or six decimals, ties upwards. Scales are whole multiples of 0.0001 and weights of 0.000001.
- The return on investment of a tick is an input, since nothing but a warning depends on it.
- The log of scale events, the text of reasons and errors, the artifact generator and the vault of the loop.
- Overlapping ticks, which stopping and starting the loop within one await would make, and event listeners that throw outside the guarded part of a tick.
- Credential overwrites are tables of values by key: null entries, keys of the object prototype and values that are not plain data are left out; encryption and JSON are taken as inverse.
- The types known to `recognizes` and `getByName` and those in `knownCredentials` are taken to extend the same parents.
- The flag that skips a reload during a reload, the broadcast to other processes and the frontend reload.
- Veri3fy.Verifier.Stage1: absent and mistyped fields of a payload, which this loop never builds, are not modelled.
- CredentialRepair.RepairAgreesIff: its caches are maps, so keys of the object prototype are treated in `CredentialCacheKeys` instead.
- CredentialRepair.RepairReference: likewise, and so are `RepairReferences`, `ReplaceInvalidCredentials`, `RepairIsIdempotent` and `OldStyleLookedUpOnce`.
- With several parents per type, exactly when `get` depends on the iteration order: agreement of all ways up is enough (`UnambiguousIsStable`) and not needed (`StableThoughAmbiguous`).
- Credential types named like a key of the object prototype, and credential rows with such ids, which are generated.
- Credential rows do not change during one repair pass.
- Queue mode: the new row of an execution is set running by the process that created it. The two capacity queues, for production and evaluation executions, are one queue here.
- `add` awaits several times: its stretches before registration are events of the state machine, not methods. The same holds for `startExecution` after its first await.
- Starting and stopping the loop: a run begins with the first tick of a started one.
- Incarnation records are found through the call that made them, not through an object reference; agents of the PAX crew are found by position.
- Response promises, streaming, `attachWorkflowExecution`, and the wait at the end of `shutdown` for the remaining executions.
- In the resume protocol timers, polls, webhooks and finished children are one event that may happen anywhere at any time; the timers themselves are in `WaitTracker`, without instants.
- The data of the last executed node is an optional value; which node that is lies outside.
- The pattern hash is an input of `Ingest`, and feature extraction is left out.
- How `add` activates a workflow: a retry drops the entry at some point or not, and then ends or fails.
- What a webhook makes of the parent's data: it hands over any data at all.
- What the deduplicator records, and the modes in which it compares values.
- Whether the engine honours the soft stop: outside this model.
- The microtasks of promises: a settle handler may run at any later point here, while on the platform it runs before any answer of the database.
- A hard stop relative to the first start: every run gives the row a new start time, so nothing beyond `CarriedHardStop` is promised.
- Liveness: nothing here says that a timer fires or that a promise settles.
