# sandboxMatrix: a verified model

sandboxMatrix creates sandboxes (containers) from blueprints, groups them into matrices, keeps warm pools of
ready containers, limits teams by quotas, carries messages between agents, collects task results and scales
sandboxes with the load of the host. This project models the state machines behind that and proves what they
keep in every run.

The source changes its state in place, so each stateful component has two forms here. A class has the source's
fields and loops, is proved equal, method by method, to a pure function on the component's state, and keeps the
component's invariant. Lemmas prove the properties about those functions, over arbitrary sequences of steps and
arbitrary failures.

| files | component |
|---|---|
| `PoolCore`, `PoolProtocol`, `PoolEffects`, `PoolObject` | the warm pool: critical sections, their interleavings with claimers, releasers and the warmer, and the pool as an object |
| `Records`, `Quota`, `Lifecycle`, `LifecycleProofs`, `LifecycleOutcomes`, `QuotaProofs`, `Reconciler` | sandbox records, team quotas, the sandbox lifecycle and its invariants, and Reconcile in parallel with other calls |
| `Matrix`, `MatrixCreate`, `MatrixRoundTrip`, `MatrixRuns`, `MatrixRace`, `MatrixOutcomes`, `Controller` | matrices, matrix creations in parallel, and the controller as an object |
| `Gateway`, `Collector` | inboxes between agents, and the collector that polls them |
| `Blueprint`, `BlueprintLoading` | inheritance by `extends`, the environment of a sandbox, and what it is charged for |
| `Autoscaler`, `Probe`, `Sharding`, `RoundRobinRuns` | the scaling loop, the readiness loop, task distribution, and overlapping round-robin calls |
| `Arithmetic`, `Wrappers` | a few facts about division, and `Option` |

## What is assumed

- Calls into the container runtime may fail at any point; a call that fails has no effect. New containers get ids
  that were never used before. Containers change only through the controller.
- The runtime refuses to create a network under a name that is taken.
- The record stores are maps and do not fail.
- The controller's invariants hold in all interleavings. What one matrix call achieves as a whole (`MatrixCreate`,
  `MatrixRoundTrip`) is proved of a call during which no other call touches its members' sandboxes, its network or its
  record: the lock is free between members. `RollbackDestroysByName` says what the rollback does to whatever is
  interleaved with it.
- Callers of the pool release only what they hold, once, to the pool they took it from. Each pool is configured
  once, and `Warm` and `Drain` calls do not overlap.
- `Reconcile` takes no lock, and its comment asks for one call at startup. In `LifecycleProofs` and `QuotaProofs` a
  Reconcile overlaps no other call; everything else interleaves freely. Module `Reconciling` drops this assumption and
  proves exactly what overlapping costs.
- Processor shares in quotas and blueprints are exact numbers; bytes and devices are exact numbers that are added up
  in signed 64 bits, as the source adds them. Signs and sizes are not assumed: they are stated conditions.
- Clocks, tickers, deadlines and cancellations are arbitrary sequences of events. Host readings, generated ids, secret
  files, payload decoding and the hash function are parameters.

## What does not hold

These natural claims are false of the code. Each has its counterexample and the exact condition or the true bound.

- A pool never has more than `MaxSize` ready containers. On-demand claims that are released during a fill ignore the
  container under creation, so `MaxSize + 1` is the true bound, and every pool with `MinReady > 0` reaches it
  (`CapacityBoundIsTight`). For `MaxSize > 0` the claim holds in all runs if and only if `MinReady` is 0
  (`ReadyAlwaysWithinIffNotWarmed`). Of a single run, ready plus creating stays within `MaxSize` if and only if the
  last claimed container never comes back while a fill for the last free place is under way
  (`PlannedIffNoOvershoot`).
- Records and containers agree whatever overlaps. A sandbox that is destroyed between the listing of a Reconcile and
  its lookup comes back as a record without a container (`DestroyInBetweenBreaks`). When the steps of a Reconcile fall
  between critical sections, agreement and gauge hold throughout a run if and only if every saved entry was still true
  and overwrote no active record (`OverlapSoundIffHarmless`). A save that falls inside a Create which then fails breaks
  the gauge even so (`SaveInsideCreateBreaksGauge`).
- A failed `CreateMatrix` cleans up after itself. The cleanup stops at the first member that bears the name of the
  failed one, so with duplicate member names it leaks a container. It is all-or-nothing if and only if the names
  differ (`AllOrNothingIffDistinct`).
- Teams stay within their limits. A blueprint with a negative size lends its debt to another sandbox (`DebtIsLent`).
  For amounts and limits up to 2^62, limits are kept in every run if and only if the blueprint files do not mix negative
  and positive amounts (`AlwaysWithinIffOneSign`). Beyond that the 64-bit sums wrap: with one byte in use, a request
  for 2^63 - 1 bytes passes every limit (`WrappedSumBreaksLimit`), and one check decides rightly if and only if its sum
  does not wrap (`CheckIsExactIffNoWrap`).
- Teams stay within their matrix limit when calls overlap. Creations that were checked together are saved together, and
  a stop or a start saves its record again even if it was dropped meanwhile. With at most k creations and at most p
  stops and starts under way at a time the true bound is limit + k - 1 + p (`RaceIsBounded`), and it is reached for
  every limit, k and p (`RaceBoundIsReached`).
- Round robin is fair. When the 64-bit counter wraps, the loads can differ by 2. Fairness is permanent if and only if
  the number of members divides 2^64 (`FairForeverIffDivides`).
- A majority is more than half of the expected results. The truncating division is off for an expected count of -1,
  and only there (`MajorityIsMoreThanHalf`).
- A registered sandbox is known as it is. Registering a container that is paused, scaled down or tracked under another
  name breaks the autoscaler's invariant, and nothing else does (`RegisterKeepsInvIff`).

The comment at `pkg/blueprint/parser.go:138` says that a child's network wins if any of its fields is set; the code
looks at the policy and the exposed ports and ignores `allowDNS` alone. The model follows the code.

## Model

| member | source | states |
|---|---|---|
| `PoolObject.BlueprintPool.Claim` | internal/pool/pool.go:133-143 | the section of Claim that takes the newest ready container and counts it as in use; a step of the protocol that keeps its invariant |
| `PoolObject.BlueprintPool.TakeOnDemand` | internal/pool/pool.go:163-168 | the section of Claim after an on-demand creation |
| `PoolObject.BlueprintPool.Release` | internal/pool/pool.go:174-197 | the container goes back to the end of the ready list if and only if there is no maximum or ready plus in use is within it; a step of the protocol that keeps its invariant |
| `PoolObject.BlueprintPool.BeginFill` | internal/pool/pool.go:261-286 | a creation begins if and only if fewer are ready or creating than wanted and the maximum, if there is one, leaves room |
| `PoolObject.BlueprintPool.Place` | internal/pool/pool.go:290-295 | the section after the creation: the container is placed, or the failure is accounted for |
| `PoolObject.BlueprintPool.Count` | internal/pool/pool.go:323-327 | the section that counts a created container |
| `PoolObject.BlueprintPool.Drain` | internal/pool/pool.go:364-371 | everything ready is collected for destruction and the list is empty |
| `PoolObject.BlueprintPool.FillPool` | internal/pool/pool.go:255-297 | undisturbed, the loop appends the runtime's successes in order, never exceeds the shortfall, stops only when the pool is full, and without failures makes exactly as many creations as were missing; with fresh ids it keeps the protocol's invariant |
| `PoolProtocol.ReleaseNeverReopens` | internal/pool/pool.go:174-197 | a release never makes room in a pool that had none |
| `PoolEffects.ReleaseKeepsIffRoom` | internal/pool/pool.go:174-197 | in every reachable state a released container becomes ready if and only if there is no maximum or ready plus held is within it; otherwise it is handed to Destroy |
| `PoolEffects.ClaimTakesNewest` | internal/pool/pool.go:133-151 | in every reachable state a claim takes the container that became ready last, which is then held, and a notify is due |
| `PoolEffects.FillBeginsIffShort` | internal/pool/pool.go:261-286 | in every reachable state the warmer begins a creation if and only if fewer are ready than wanted and ready plus held is below the maximum, if there is one |
| `PoolEffects.PlaceAppends` | internal/pool/pool.go:288-295 | a created container is placed last, a failed creation places nothing |
| `PoolProtocol.StepKeepsExclusive` | internal/pool/pool.go:123-197 | no container is twice ready, or in two hands, after any step of any participant |
| `PoolProtocol.StepKeepsConserved` | internal/pool/pool.go:255-330 | in use counts the held containers, creating counts the fills in flight, and the number created is ready + held + counted but not placed + handed to Destroy |
| `PoolProtocol.StepKeepsRuntime` | internal/pool/pool.go:300-330 | what somebody owns is alive, and what is alive is owned or was handed to Destroy |
| `PoolProtocol.StepKeepsWakeup` | internal/pool/pool.go:229-252 | no step loses a wakeup: a parked warmer that should fill has a token or a claimer about to send one |
| `PoolProtocol.StepKeepsCapacity` | internal/pool/pool.go:261-297 | ready plus creating stays at most the maximum plus one |
| `PoolProtocol.StepKeeps` | internal/pool/pool.go:123-382 | every enabled step of the protocol keeps the whole invariant |
| `PoolProtocol.EveryRunKeepsInv` | internal/pool/pool.go:123-382 | exclusive ownership, conservation, agreement with the runtime, no lost wakeup and the capacity bound, in every state of every interleaving from a configured pool |
| `PoolProtocol.ShortfallWakesWarmer` | internal/pool/pool.go:133-151 | in every reachable state a parked warmer with a shortfall can wake now, or as soon as a pending notify is sent |
| `PoolProtocol.StepExceedsIffOvershoots` | internal/pool/pool.go:183-195 | a step takes ready plus creating over the maximum if and only if it releases the last claimed container while a fill for the last free place is under way |
| `PoolProtocol.PlannedIffNoOvershoot` | internal/pool/pool.go:174-297 | ready plus creating is within the maximum throughout a run if and only if no such release occurs in it |
| `PoolProtocol.CapacityWithoutRace` | internal/pool/pool.go:174-197 | so ready plus creating, and with it the ready count, is within the maximum on runs in which no release falls inside a fill |
| `PoolProtocol.CapacityBoundIsTight` | internal/pool/pool.go:153-192 | for every positive minimum and maximum there is a run that ends with one ready container more than the maximum |
| `PoolProtocol.ReadyAlwaysWithinIffNotWarmed` | internal/pool/pool.go:255-281 | for a positive maximum, every run keeps the ready containers within it if and only if the pool asks for no ready containers |
| `Quota.GetUsage` | internal/quota/manager.go:192-234 | the loop computes, for every resource, the sum over the team's records, whatever order the store lists them in |
| `Quota.CountMatrices` | internal/quota/manager.go:236-247 | the loop counts the team's matrices |
| `Quota.CountSessions` | internal/quota/manager.go:249-267 | the loop counts the active sessions in sandboxes of the team |
| `Quota.UsageOfOne` | internal/quota/manager.go:203-234 | what one record counts for: only for its team, one sandbox, and what its readable amounts say |
| `Quota.CheckQuotaExact` | internal/quota/manager.go:61-188 | where no sum wraps, an unknown team is refused, and a known one if and only if some limit that is set and asked for is unreadable or broken; the refusal names the first such limit, of sandboxes, CPU, memory, disk, GPUs, matrices and sessions |
| `Quota.TotalSave` | internal/quota/manager.go:192-234 | saving a record replaces exactly what its name contributed to a team's usage |
| `Quota.TotalDelete` | internal/quota/manager.go:192-234 | deleting a record takes exactly its share away |
| `QuotaProofs.PassedCheckFits` | internal/quota/manager.go:61-188 | a request that passes the limits fits on top of the usage that was checked, whatever its sign, if limit plus amount fit in 64 bits |
| `QuotaProofs.AdmittedFits` | internal/controller/controller.go:194-210 | an admitted record leaves every team within each limit |
| `LifecycleOutcomes.GrantedIffFits` | internal/controller/controller.go:194-210 | a team's request for a blueprint is granted if and only if one more sandbox and each amount the blueprint asks for fit on top of what its records use |
| `LifecycleOutcomes.AdmissionOutcome` | internal/controller/controller.go:175-320 | a creation is refused for a taken name, an invalid blueprint, the quota or the workspace, in that order, and for nothing else |
| `LifecycleOutcomes.CreateOkIff` | internal/controller/controller.go:162-427 | a creation succeeds if and only if it is admitted, the container is created and started, every setup step passes, and so does the probe if there is one |
| `LifecycleOutcomes.CreateReportsFirstFailure` | internal/controller/controller.go:358-416 | otherwise it reports the first thing that went wrong |
| `LifecycleOutcomes.CreateLeaves` | internal/controller/controller.go:353-427 | success leaves a record that is Ready exactly when there is a probe, the running container it names, and one more on the gauge |
| `LifecycleOutcomes.FailedCreateLeaves` | internal/controller/controller.go:137-416 | failure leaves an Error record, which keeps the id of a container that had been started, and the container only if it could not be destroyed |
| `LifecycleOutcomes.StopOutcome` | internal/controller/controller.go:430-468 | a stop succeeds if and only if the sandbox is Running or Ready and the runtime stops it; what it reports otherwise, and the whole new state |
| `LifecycleOutcomes.StartOutcome` | internal/controller/controller.go:471-510 | a start succeeds if and only if the sandbox is Stopped and the runtime starts it; likewise |
| `LifecycleOutcomes.DestroyOutcome` | internal/controller/controller.go:513-544 | a destroy succeeds if and only if there is a record and its container, if it names one, is destroyed; likewise |
| `LifecycleOutcomes.RestoreOutcome` | internal/controller/controller.go:608-716 | a restore succeeds if and only if the source is there, the name is free, and the runtime restores and starts the container; the record has the source's resources and no team |
| `LifecycleOutcomes.ReconcileRecords` | internal/controller/reconciler.go:18-87 | Reconcile name by name: a record that was there stays, otherwise the first listed container of that name is recorded with its state, and nothing else |
| `LifecycleProofs.ProvisionRecord` | internal/controller/controller.go:353-427 | whatever fails, a creation saves one record with the draft's team and resources, Error exactly on failure, and the gauge moves exactly on success |
| `LifecycleProofs.ProvisionAgrees` | internal/controller/controller.go:137-159 | every path of a creation, cleanup included, keeps records and containers in agreement |
| `LifecycleProofs.StopAgrees` | internal/controller/controller.go:430-468 | Stop keeps the agreement |
| `LifecycleProofs.StartAgrees` | internal/controller/controller.go:471-510 | Start keeps the agreement |
| `LifecycleProofs.DestroyAgrees` | internal/controller/controller.go:513-544 | Destroy keeps the agreement |
| `LifecycleProofs.ImportAgrees` | internal/controller/reconciler.go:41-84 | importing a container as it is keeps the agreement: a step of a Reconcile that overlaps no other call |
| `LifecycleProofs.SectionAgrees` | internal/controller/controller.go:162-716 | every critical section keeps: Running and Ready records name a running container, Stopped ones a stopped one, Pending ones a created one, no two records name the same one, none is left Creating; imports are those of a Reconcile that overlaps no other call |
| `LifecycleProofs.RunAgrees` | internal/controller/controller.go:162-716 | the same over all interleavings and all failures, where a Reconcile overlaps no other call |
| `LifecycleProofs.ReconcileTracksAll` | internal/controller/reconciler.go:35-87 | after reconcile every listed container that carries a name is tracked, and no container, existing record or gauge has changed |
| `Reconciling.SaveAgreesIff` | internal/controller/reconciler.go:57-84 | a save from a listing keeps records and containers in agreement if and only if the container still is as listed |
| `Reconciling.SaveGaugeIff` | internal/controller/reconciler.go:48-84 | it keeps the gauge right if and only if it overwrites no active record |
| `Reconciling.OverlapSoundIffHarmless` | internal/controller/reconciler.go:35-87 | over every interleaving of the steps of Reconcile with the critical sections, agreement and gauge hold throughout if and only if every save was of that kind |
| `Reconciling.DestroyInBetweenBreaks` | internal/controller/reconciler.go:35-87 | any sandbox destroyed between listing and lookup comes back as a record without a container |
| `Reconciling.QuietOverlapAgrees` | internal/controller/reconciler.go:35-87 | for the agreement of records and containers, a Reconcile may overlap anything but a stop, start or destroy of what it listed |
| `Reconciling.QuietOverlapSound` | internal/controller/reconciler.go:35-87 | if besides nobody creates, restores or imports under the name between lookup and save, the gauge is right too |
| `Reconciling.SaveInsideCreateBreaksGauge` | internal/controller/reconciler.go:48-84 | a true save that overwrites the Creating record of a Create which then fails leaves the gauge off |
| `Reconciling.OverlapKeepsLimit` | internal/controller/reconciler.go:57-84 | limits are kept in every interleaving, Reconcile included |
| `Reconciling.ImportIsLookUpAndSave` | internal/controller/reconciler.go:41-84 | without overlap, lookup and save are the import of the serial model |
| `LifecycleProofs.RunNoOrphans` | internal/controller/controller.go:162-716 | with cleanup calls that succeed and no import, every live container is named by a Running, Ready or Stopped record of its owner |
| `LifecycleProofs.LiveContainersAreRecorded` | internal/controller/controller.go:353-544 | from an empty system the live containers are exactly those that Running, Ready and Stopped records name, each named once |
| `LifecycleProofs.RunGauge` | internal/controller/controller.go:418-424 | over every run the active gauge plus the imported Running records is the number of active records |
| `QuotaProofs.SectionEffect` | internal/controller/controller.go:162-716 | every critical section keeps the store, deletes one record, updates one with the same team and resources, adds one without a team, or adds one that passed the quota check |
| `QuotaProofs.EffectKeepsLimit` | internal/controller/controller.go:513-544 | where sums fit in 64 bits, only destroying a record with a negative amount can take a team over its limit |
| `QuotaProofs.RunLimit` | internal/controller/controller.go:170-210 | in every interleaving a team stays within its limit on a resource, if no amount of it is negative and limit plus amount fit in 64 bits |
| `QuotaProofs.RunQuota` | internal/controller/controller.go:170-210 | all limits at once, under the same conditions |
| `QuotaProofs.WithinQuotaMeans` | internal/quota/manager.go:73-160 | what it is to be within the quota: each limit that is set, on sandboxes, CPU, memory, disk and GPUs, is at least the total over the team's records |
| `QuotaProofs.ControllerInvariant` | internal/controller/controller.go:162-716 | agreement, gauge and quotas together in every state reached from startup, where a Reconcile overlaps no other call |
| `QuotaProofs.DebtIsLent` | internal/quota/manager.go:274-282 | create, create, destroy with one negative amount ends over the limit, whenever the two together fit and the second alone does not |
| `QuotaProofs.AlwaysWithinIffOneSign` | internal/quota/manager.go:81-150 | for CPU, memory and disk amounts below 2^62: every run stays within every limit up to 2^62 if and only if the blueprint files do not mix negative and positive amounts |
| `QuotaProofs.WrappedSumBreaksLimit` | internal/quota/manager.go:103-150 | for every 64-bit limit on memory or disk a run with positive amounts only exceeds it, because a 64-bit sum wraps |
| `Quota.CheckIsExactIffNoWrap` | internal/quota/manager.go:103-150 | for a usage within the limit, the check of memory or disk decides rightly if and only if the sum does not wrap |
| `Quota.GpuCheckIsExactIffNoWrap` | internal/quota/manager.go:148-160 | the same of the check of GPUs |
| `Quota.SummedInSteps` | internal/quota/manager.go:192-234 | adding up in 64 bits and checking in 64 bits is checking the exact sum in 64 bits |
| `MatrixCreate.CreateMatrixFailure` | internal/controller/matrix.go:84-105 | what exactly a failed CreateMatrix leaves: the members from the first namesake of the failed one on, and at most one Error record |
| `MatrixCreate.CreateMatrixUndoes` | internal/controller/matrix.go:64-112 | with different names, containers, networks, matrices and gauge are as before and the store differs at most by one Error record under the failed name |
| `MatrixCreate.RollbackShrinks` | internal/controller/matrix.go:94-100 | the cleanup loop undoes exactly the members before the first namesake of the failed one, and no sandbox that was there before |
| `MatrixRuns.RollbackDestroysByName` | internal/controller/matrix.go:94-100 | whatever others do between its destroys, the rollback destroys once each and in order what bears the names of the members before the first namesake of the failed one, and nothing else |
| `MatrixRuns.RollbackAlone` | internal/controller/matrix.go:94-100 | undisturbed, that is the rollback of the serial model |
| `MatrixCreate.DuplicateNamesLeak` | internal/controller/matrix.go:94-100 | a duplicate name makes the creation fail and leaves a container, even if no call fails |
| `MatrixCreate.AllOrNothingIffDistinct` | internal/controller/matrix.go:64-112 | creation is all-or-nothing if and only if the member names differ |
| `MatrixRoundTrip.StopMatrixStopsAll` | internal/controller/matrix.go:115-150 | success means that every member is Stopped and its container exited |
| `MatrixRoundTrip.StopStartRoundTrip` | internal/controller/matrix.go:153-188 | a successful stop and start give back the same world: same ids running, Ready turned into Running, nothing else changed |
| `MatrixRoundTrip.DestroyMatrixRemovesAll` | internal/controller/matrix.go:192-227 | success leaves no member record, no member container and no matrix record, and everything else as it was |
| `MatrixOutcomes.StopMatrixDoneIff` | internal/controller/matrix.go:115-150 | a matrix is stopped if and only if it is active, its member names differ, each member is Running or Ready, and no runtime call fails; its record changes only then |
| `MatrixOutcomes.StartMatrixDoneIff` | internal/controller/matrix.go:153-188 | a matrix is started if and only if it is stopped, its member names differ, each member is Stopped, and no runtime call fails; its record changes only then |
| `MatrixOutcomes.DestroyMatrixDoneIff` | internal/controller/matrix.go:192-227 | success is reported if and only if there is a record, the member names differ, and each member has a record whose container is destroyed; record and network go in any case |
| `MatrixOutcomes.EachMemberOnItsOwn` | internal/controller/matrix.go:129-205 | stopping, starting or destroying goes on after a failure: each member is treated on its own, no other record changes, and the first member that failed is reported |
| `MatrixOutcomes.CreateMatrixRefusals` | internal/controller/matrix.go:48-68 | a creation does not begin for a taken name, the quota or the network, in that order, and then changes nothing |
| `MatrixOutcomes.CreateMatrixRecordsAndNetworks` | internal/controller/matrix.go:64-112 | success adds the record and the network; failure adds no record, and leaves the network exactly when it could not be dropped |
| `MatrixOutcomes.MatrixCheckIff` | internal/controller/matrix.go:53-62 | the quota check passes if and only if there is room for one more matrix and for all its members |
| `MatrixOutcomes.CreateMatrixDoneIff` | internal/controller/matrix.go:32-112 | without a quota in the way, a matrix is created if and only if its name and network are free, the member names differ, and each member can be created |
| `MatrixRuns.CallIsRun` | internal/controller/matrix.go:32-227 | every public call, matrix calls included, is a run of critical sections |
| `MatrixRuns.SerialInvariant` | internal/controller/matrix.go:32-227 | so agreement, gauge and quotas hold after every sequence of calls |
| `MatrixRuns.SerialMatrixCount` | internal/controller/matrix.go:53-62 | no team ever has more matrices than its limit when calls do not overlap |
| `MatrixRace.RaceIsBounded` | internal/controller/matrix.go:53-188 | when at most k creations and at most p stops and starts of a team are under way at a time, it never has more than limit + k - 1 + p matrices |
| `MatrixRace.RaceBoundIsReached` | internal/controller/matrix.go:53-188 | for every limit, k and p there is a run that ends with limit + k - 1 + p matrices |
| `MatrixRuns.UpFrontCheckSuffices` | internal/controller/matrix.go:53-92 | once the check of the number of members passes, no member is refused on the number of sandboxes |
| `ControllerObject.Controller.CheckQuota` | internal/quota/manager.go:61-188 | the checks in order over the computed usage, sessions included; the first broken limit is reported |
| `ControllerObject.Controller.Admit` | internal/controller/controller.go:175-210 | the reasons for which Create refuses, in order, with or without a quota checker |
| `ControllerObject.Controller.Provision` | internal/controller/controller.go:353-427 | the step-by-step creation with its cleanup paths gives the specified world and outcome |
| `ControllerObject.Controller.Create` | internal/controller/controller.go:162-427 | Create as specified, whichever calls fail; keeps agreement and gauge |
| `ControllerObject.Controller.Stop` | internal/controller/controller.go:430-468 | Stop as specified, with its error cases; keeps agreement and gauge |
| `ControllerObject.Controller.Start` | internal/controller/controller.go:471-510 | Start as specified, with its error cases; keeps agreement and gauge |
| `ControllerObject.Controller.Destroy` | internal/controller/controller.go:513-544 | Destroy as specified: a container that cannot be destroyed keeps its record; keeps agreement and gauge |
| `ControllerObject.Controller.Restore` | internal/controller/controller.go:608-716 | Restore as specified: the source's resources, no team, no quota check; keeps agreement and gauge |
| `ControllerObject.Controller.Reconcile` | internal/controller/reconciler.go:35-87 | a Reconcile that overlaps no other call: nothing happens if the runtime cannot list, otherwise the loop gives the specified store and keeps agreement and gauge |
| `ControllerObject.Controller.CreateMatrix` | internal/controller/matrix.go:32-112 | CreateMatrix as specified, with the checks and the failure path; keeps agreement and gauge |
| `ControllerObject.Controller.CreateMembers` | internal/controller/matrix.go:84-105 | the loop over the members, and which member failed |
| `ControllerObject.Controller.Rollback` | internal/controller/matrix.go:94-100 | the nested cleanup loop |
| `ControllerObject.Controller.StopMatrix` | internal/controller/matrix.go:115-150 | goes on after a failure and reports the first one; keeps agreement and gauge |
| `ControllerObject.Controller.StartMatrix` | internal/controller/matrix.go:153-188 | goes on after a failure and reports the first one; keeps agreement and gauge |
| `ControllerObject.Controller.DestroyMatrix` | internal/controller/matrix.go:192-227 | network and matrix record go even if a member could not be destroyed; keeps agreement and gauge |
| `GatewayObject.Gateway.Send` | internal/agent/a2a/gateway.go:45-81 | refuses incomplete messages and full inboxes, otherwise appends; keeps the invariant of the gateway |
| `GatewayObject.Gateway.Receive` | internal/agent/a2a/gateway.go:84-99 | returns and clears the inbox; keeps the invariant of the gateway |
| `GatewayObject.Gateway.ReceiveByType` | internal/agent/a2a/gateway.go:119-147 | the partition loop returns one kind and leaves the others, both in order; keeps the invariant of the gateway |
| `GatewayObject.Gateway.Broadcast` | internal/agent/a2a/gateway.go:158-181 | sends target by target until one send fails, with calls of others in between; keeps the invariant of the gateway |
| `GatewaySpec.ReceiveByTypeBalanced` | internal/agent/a2a/gateway.go:119-147 | drawing one kind keeps the books of every recipient and kind |
| `GatewaySpec.BroadcastReachesPrefix` | internal/agent/a2a/gateway.go:158-181 | whatever others send and receive in between, exactly a prefix of the targets gets the message, each once and in order, and the first one left out is nameless or has a full inbox |
| `GatewaySpec.UninterruptedReachesPrefix` | internal/agent/a2a/gateway.go:158-181 | undisturbed, the accepted messages are exactly the copies for that prefix |
| `GatewaySpec.BroadcastIsRun` | internal/agent/a2a/gateway.go:158-181 | a broadcast and what is interleaved with it are a run of the calls under the lock |
| `GatewaySpec.RunKeeps` | internal/agent/a2a/gateway.go:45-181 | over every run, per recipient and kind, delivered then waiting messages are the accepted ones in order; inboxes hold only their owner's messages and at most 10000 |
| `GatewaySpec.StartsEmpty` | internal/agent/a2a/gateway.go:37-42 | a new gateway satisfies that invariant |
| `GatewaySpec.SendAcceptedIff` | internal/agent/a2a/gateway.go:45-81 | a message is accepted if and only if sender, recipient and kind are given and fewer than 10000 messages wait; it is then last in that inbox, with an id |
| `GatewaySpec.ReceiveAnswers` | internal/agent/a2a/gateway.go:84-99 | a receive answers with all that waits, which is what counts as delivered |
| `GatewaySpec.ReceiveByTypeAnswers` | internal/agent/a2a/gateway.go:119-147 | a receive by type answers with what waits of that kind, which is what counts as delivered; the rest goes on waiting |
| `GatewaySpec.BroadcastAnswers` | internal/agent/a2a/gateway.go:158-181 | a broadcast reports success if and only if it has a sender, a kind and a target and reached all targets |
| `CollectorObject.Collect` | internal/aggregation/aggregation.go:37-104 | ends at the first poll at which the strategy is complete, otherwise at the deadline or the cancellation, with the results in hand |
| `CollectorObject.BuildResult` | internal/aggregation/aggregation.go:106-125 | total is succeeded plus failed, and succeeded counts the successes |
| `CollectorObject.IsComplete` | internal/aggregation/aggregation.go:80-102 | the switch over the strategies |
| `CollectorSpec.StrategyMeans` | internal/aggregation/aggregation.go:80-102 | first-success: some result is a success; majority: more than half of the expected number are; any other strategy: as many results as expected |
| `CollectorObject.Poll` | internal/aggregation/aggregation.go:62-78 | one drain, and the decodable results of this task in order |
| `CollectorSpec.RoundsDrainAll` | internal/aggregation/aggregation.go:62-78 | against any sends between polls, the collector has drained exactly the task results that waited or arrived, in order; every other message waits untouched |
| `CollectorSpec.ResultsInHand` | internal/aggregation/aggregation.go:68-78 | its results are exactly the decodable results of this task among them |
| `CollectorSpec.ResultOfOne` | internal/aggregation/aggregation.go:68-78 | a message gives a result if and only if it decodes to one of this task |
| `CollectorSpec.MajorityIsMoreThanHalf` | internal/aggregation/aggregation.go:88-97 | the truncating division means more than half, except for an expected count of -1 |
| `Blueprints.MergeBlueprints` | pkg/blueprint/parser.go:93-172 | the field-by-field merge gives the specified blueprint |
| `Blueprints.MergeAssociative` | pkg/blueprint/parser.go:93-172 | merging is associative |
| `Blueprints.ChainClosedForm` | pkg/blueprint/parser.go:71-172 | a resolved chain: type of the root, metadata of the leaf, nearest set scalar per field, lists root first, environments overlaid |
| `Blueprints.OverlayIsNearest` | pkg/blueprint/parser.go:153-161 | a variable has the value nearest to the leaf |
| `Blueprints.ParseFileIffChain` | pkg/blueprint/parser.go:33-90 | parsing succeeds if and only if a file without extends is at most five valid links away, and then gives the merged chain |
| `Blueprints.CyclesAreErrors` | pkg/blueprint/parser.go:71-90 | when the links run into a cycle of any length, parsing reports an error |
| `Blueprints.ParseOneFile` | pkg/blueprint/parser.go:33-58 | only a file at an allowed path that can be read and is valid is parsed; without extends it is the result |
| `Blueprints.ResolveSecrets` | internal/controller/controller.go:108-127 | the loop resolves each name to its last secret |
| `Blueprints.SecretSources` | internal/controller/controller.go:108-127 | a host variable, a trimmed file or nothing if it cannot be read, or the value itself |
| `Blueprints.BuildEnv` | internal/controller/controller.go:244-257 | a variable in the sandbox is the caller's option, else the last secret of that name, else the nearest blueprint's value |
| `Blueprints.EnvironmentLayers` | internal/controller/controller.go:244-257 | by position: an option, else the last secret of the resolved chain with that name, else the blueprint nearest to the leaf that sets it, and nothing else is set |
| `BlueprintLoading.ChargedForNearest` | internal/controller/controller.go:195-205 | the quota request of a resolved chain has, per resource, what the parser makes of the amount nearest to the leaf |
| `BlueprintLoading.NotChargedForUnset` | internal/controller/controller.go:195-205 | and nothing for what the chain never sets |
| `BlueprintLoading.DraftIsFromChain` | internal/controller/controller.go:334-352 | the saved record is charged for what the resolved chain of its file asks for |
| `BlueprintLoading.ProbedIff` | internal/controller/controller.go:397-416 | a sandbox is probed if and only if some blueprint of the chain has a probe |
| `BlueprintLoading.InvalidBlueprintIff` | internal/controller/controller.go:181-186 | a new name is refused for its blueprint if and only if the chain does not end within five links or the resolved blueprint does not pass validation |
| `AutoscalerObject.Autoscaler.RegisterSandbox` | internal/autoscale/autoscaler.go:133-144 | tracks the sandbox at full scale, also over an existing entry; keeps the invariant if and only if the container is untracked elsewhere, unpaused and not scaled down |
| `AutoscaleSpec.RegisterKeepsInvIff` | internal/autoscale/autoscaler.go:133-144 | the same of every fleet |
| `AutoscalerObject.Autoscaler.SetSandboxPriority` | internal/autoscale/autoscaler.go:124-130 | sets the priority of a tracked sandbox and nothing else |
| `AutoscalerObject.Autoscaler.UnregisterSandbox` | internal/autoscale/autoscaler.go:147-151 | forgets the sandbox and leaves its container alone |
| `AutoscalerObject.Autoscaler.ScaleSandbox` | internal/autoscale/autoscaler.go:363-395 | the limits applied, and the scale recorded only if the runtime accepted them |
| `AutoscalerObject.Autoscaler.ExpandOne` | internal/autoscale/autoscaler.go:304-318 | the body of expandAll, and no call when there is nothing to do |
| `AutoscalerObject.Autoscaler.ShrinkOne` | internal/autoscale/autoscaler.go:322-344 | the body of shrinkByPriority, and no call when there is nothing to do |
| `AutoscalerObject.Autoscaler.PauseOne` | internal/autoscale/autoscaler.go:348-360 | the body of pauseLowPriority, and no call when there is nothing to do |
| `AutoscalerObject.Autoscaler.Reconcile` | internal/autoscale/autoscaler.go:226-259 | a tick treats each sandbox on its own, in any order; a settled fleet costs no runtime call and does not change; the invariant is kept |
| `AutoscalerObject.Autoscaler.Start` | internal/autoscale/autoscaler.go:84-96 | an autoscaler that runs already is left as it is |
| `AutoscalerObject.Autoscaler.Stop` | internal/autoscale/autoscaler.go:99-114 | restores every sandbox as a calm tick does, and does nothing if it was not running; the invariant is kept |
| `AutoscaleSpec.TickKeepsOk` | internal/autoscale/autoscaler.go:226-259 | whichever calls fail, a tick keeps: paused means scale 0, the flag is the container's real state, scales are the six known ones, applied limits match a positive scale |
| `AutoscaleSpec.RunKeepsInv` | internal/autoscale/autoscaler.go:124-402 | the same in every reachable state of the fleet |
| `AutoscaleSpec.PausedUntilCalm` | internal/autoscale/autoscaler.go:322-360 | through any run without a calm tick, a stop, its removal or a new registration a paused sandbox stays paused and its container untouched, even if its priority is raised |
| `AutoscaleSpec.TickClosedForm` | internal/autoscale/autoscaler.go:226-259 | without failures a tick is a closed form of pressure, priority and paused flag |
| `AutoscaleSpec.SteppedIsUnique` | internal/autoscale/autoscaler.go:304-360 | the order in which the map is iterated does not matter |
| `AutoscaleSpec.TickSettlesFleet` | internal/autoscale/autoscaler.go:226-259 | after such a tick the fleet is settled at that pressure, so a repetition makes no call |
| `AutoscaleSpec.CalmRestoresAll` | internal/autoscale/autoscaler.go:304-318 | after a calm tick or a stop without failures every sandbox is at full scale, and its container runs with the limits of that scale unless it never had others |
| `AutoscaleSpec.ScalesAreOrdered` | internal/autoscale/autoscaler.go:322-360 | per sandbox, calm >= high >= critical >= 0 |
| `AutoscaleSpec.MemoryLimitInRange` | internal/autoscale/autoscaler.go:363-380 | memory limits sent lie between the floor and the larger of floor and original |
| `AutoscaleSpec.MemoryLimitExact` | internal/autoscale/autoscaler.go:363-380 | the memory limit is the scaled original rounded down, or the floor if that is more |
| `AutoscaleSpec.CpuQuotaExact` | internal/autoscale/autoscaler.go:363-380 | the processor quota is the scaled share or the minimum share, whichever is more, times 100000, rounded down |
| `AutoscaleSpec.LimitsGrowWithScale` | internal/autoscale/autoscaler.go:363-380 | more scale never means lower limits |
| `AutoscaleSpec.TickTable` | internal/autoscale/autoscaler.go:322-360 | the scales in numbers, by pressure and priority |
| `AutoscaleSpec.PressureThresholds` | internal/autoscale/autoscaler.go:261-290 | which readings of memory and processor make which pressure |
| `AutoscaleSpec.PressureIsMonotone` | internal/autoscale/autoscaler.go:261-290 | more memory or processor in use never lowers the pressure |
| `Probe.WaitForReady` | internal/probe/probe.go:44-91 | stops at the first decided probe, after at most F*S probes; uncancelled, it succeeds if and only if S consecutive successes come before the F-th failure |
| `Probe.NeverReady` | internal/probe/probe.go:78-84 | giving up is right: no later streak would have come in time |
| `Probe.BoundIsTight` | internal/probe/probe.go:44-91 | for all thresholds some stream needs all F*S probes |
| `Sharding.RoundRobinStrategy.Distribute` | internal/sharding/sharding.go:51-65 | order and length kept, each task at the member of the next counter value, whatever values other calls take in between, and the counter after wrap-around |
| `Sharding.UninterruptedCall` | internal/sharding/sharding.go:51-65 | undisturbed, the members come in turn from the counter on |
| `Sharding.RoundRobinAt` | internal/sharding/sharding.go:56-63 | task i goes to the member at the i-th counter value after the start, in 64 bits |
| `Sharding.InterruptedAt` | internal/sharding/sharding.go:56-63 | with others taking values in between, it goes to the member at the next value after theirs |
| `RoundRobinRuns.RunLoads` | internal/sharding/sharding.go:51-65 | after any i steps of any overlapping calls, the tasks given to a member index over all calls are its share of the first i counter values |
| `RoundRobinRuns.RunKeepsOrder` | internal/sharding/sharding.go:51-65 | in every interleaving the result of each call keeps the order of its own tasks |
| `RoundRobinRuns.AloneIsRoundRobin` | internal/sharding/sharding.go:51-65 | while a call has the counter for itself, it returns what an undisturbed call returns |
| `RoundRobinRuns.GivenIsCount` | internal/sharding/sharding.go:51-65 | with different names, the tasks a call returns for a name are those it gave to the name's index |
| `RoundRobinRuns.GivenByRoundRobin` | internal/sharding/sharding.go:51-65 | the number of tasks an undisturbed call gives to a member |
| `RoundRobinRuns.RoundRobinIsFair` | internal/sharding/sharding.go:51-65 | until the counter wraps, the loads over all calls differ by at most 1 in every interleaving |
| `RoundRobinRuns.FairForeverIffDivides` | internal/sharding/sharding.go:57-58 | the loads differ by at most 1 in all runs of any length if and only if the number of members divides 2^64 |
| `Sharding.BalancedDistribute` | internal/sharding/sharding.go:95-122 | choosing the member with the fewest tasks is round robin over the different names |
| `Sharding.BalancedIsRoundRobin` | internal/sharding/sharding.go:95-122 | for different names it is exactly what a fresh round-robin strategy assigns |
| `Sharding.HashDistribute` | internal/sharding/sharding.go:70-89 | order and length kept, each task at the member its key (or id) hashes to |
| `Sharding.HashedAppend` | internal/sharding/sharding.go:70-89 | the assignment of a concatenation is the concatenation of the assignments |

## Left out

- Docker, gVisor and Firecracker backends, the network manager, the image builder and the code interpreter: calls into other systems.
- HTTP server, dashboard, CLI, MCP server and SDKs: wrappers around the modelled operations.
- Authentication, roles and the audit log: table lookups that would only add easy members.
- File, Bolt and etcd stores and JSON or YAML encoding: the stores are maps and decoding is a given partial function.
- Store failures and containers changed from outside: they break the agreement between records and containers by design.
- Starting, ending and using sessions: the quota check counts them, but no caller ever requests any.
- Exec, stats, snapshots and file transfer of sandboxes, and `Peek` on inboxes: they change no modelled state.
- Device, port, mount and network-mode settings that Create passes to the runtime: they do not influence the records.
- Floating-point rounding and the parsing of size strings: amounts are numbers after parsing. The CPU strings NaN (which no comparison refuses) and Inf, both accepted by the parser, are not amounts of the model.
- Subscribed message handlers: arbitrary callbacks outside the lock.
- Defaults of the collector's configuration: the strategy is a parameter after defaulting, and its time limit is an event.
- Validation in `Configure`, a second `Configure` of the same path, and overlapping `Warm` or `Drain` calls.
- A drain empties one pool at a time in the model; the source empties all pools in one section, and pools share no state.
- Stopping the autoscaler while a tick is past its host reading: ticks and stops are taken one at a time.
- Aliasing in `mergeBlueprints`: the source writes into the parent's environment map and may share list storage; parents are parsed anew for each child, and the model uses values.
- Which of the parse errors is reported: the model distinguishes success from failure.
- `Validate` of blueprints: a path either validates or does not.
- MatrixRuns.SerialMatrixCount: serial calls only, because the claim is false otherwise; `MatrixRace.RaceIsBounded` has the bound for calls that overlap.
- CollectorSpec.RoundsDrainAll: the collector is the only consumer of the coordinator's inbox; with another consumer messages go to whoever drains first.
- PoolObject.BlueprintPool.FillPool: the termination measure is proved for a fill that nobody disturbs; the source's loop retries for as long as creations fail, which the model bounds by the supply of answers.
- Reconciling.OverlapSoundIffHarmless: the steps of a Reconcile fall between critical sections, not inside one; `SaveInsideCreateBreaksGauge` shows what happens inside.
- MatrixCreate.CreateMatrixUndoes: of a call whose members' sandboxes nobody else touches meanwhile; the rollback goes by name.
- MatrixCreate.AllOrNothingIffDistinct: likewise.
- The FNV hash itself: any function from keys to numbers.
