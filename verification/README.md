# Devion control plane: a verified model

Devion turns desired state into durable agent commands, and a builder service runs CI workflows under leases. This
project models the parts of it whose behaviour is decided by interleavings, arithmetic or graph structure, and proves
what they keep. `dafny verify dfyconfig.toml` checks everything.

| file | models |
|---|---|
| `workflow.dfy`, `executor.dfy` | the workflow graph validator (a depth-first search over mutable sets) and the wave executor |
| `builder_runs.dfy`, `build_gate.dfy` | the build run table, its SQL statements and the worker loop around them; what its push gate means for a workflow |
| `lifecycle.dfy`, `liveness.dfy` | workload rows, the derived deployment status, the liveness tick, heartbeats and workload telemetry |
| `reconciler.dfy` | the deployment reconciler as a protocol: any number of passes, statement by statement, and everything else that writes the same rows |
| `reconciler_laws.dfy` | the statements of that protocol, each read off the columns it reads and writes |
| `reconciler_affinity.dfy`, `reconciler_lease.dfy`, `reconciler_replicas.dfy`, `reconciler_recovery.dfy`, `reconciler_home.dfy`, `reconciler_quiet.dfy`, `reconciler_requests.dfy` | what that protocol keeps, with and without the lease |
| `scheduler.dfy`, `ports.dfy`, `placement.dfy`, `capacity.dfy` | the scheduler, the host ports, the placement loop of one pass over in-place tables, and node capacity over serial histories |
| `commands.dfy` | delivery leases, results and timeouts of agent commands |
| `metrics.dfy`, `metrics_laws.dfy` | metric aggregation and the SQL downsampling in front of it; the rates in terms of sample columns and seconds |
| `revisions.dfy` | optimistic versioning of deployments, rollback and redeployment |
| `rate_limit.dfy`, `process_output.dfy`, `process_output_laws.dfy`, `log_frames.dfy` | the fixed-window rate limiter and its stores, bounded output capture and what it means in UTF-8 bytes and line ends, the container log decoder |

How the source is rendered:

- A SQL statement or transaction is one atomic step on the rows. The clock is a parameter that never goes back; a stamp
  that code reads before it runs a statement may lag behind the clock at that statement.
- Code that changes things in place is a class or a method with loops, and its contract equates the new state with a
  specification function of the old one. The theorems are then about those functions. Where passes or workers interleave
  between statements, the protocol is a transition system (`Allowed`, `After`, `Run`) over those same functions.
- Such a function is not left to speak for itself: the contract, or a law beside it, states its effect by the columns of
  the rows, the texts of conditions or the bytes involved.
- Ids are opaque. A node id carries a rank, standing for the order that breaks ties. Scores and rates are reals.
- A step that can fail for reasons outside the model (a foreign call, an exception, a unique violation on a port) may
  fail at any point.

Results that differ from what a reader might expect:

- The replica bound needs one condition on timing: the pass that places still holds the stored lease. Every run with too
  many workloads contains a placement by a pass that had lost its lease (`ExcessNeedsLostLease`), and
  `OutlivedLeasePlacesTwice` is such a run. Backoff and manual intervention need the same of resets and escalations.
  Passes that end within 60 s satisfy both. Volume affinity and the attempt cap need nothing of the kind.
- A worker slot can hold two active runs: its id comes from the configuration, so a process that starts again under it
  claims while its old run is still active. Slots hold one run each exactly as long as no id starts again while an active
  run names it (`EventKeepsHoldIff`, `OneRunPerSlot`, `RestartTakesSecondRun`). Closed runs and pushes do not depend on it.
- Within one claim at most one build attempt gets through the push gate, so a workflow with two build steps that may not
  fail cannot complete, and retrying a failed build never helps (`OneBuildPerExecution`).
- Distinct host ports need more than distinct fixed ones: a fixed port of the dynamic range must not follow a searched
  port of its protocol. `DistinctIffSafe` is exact, over all workload ids.
- A rollback is a fresh revision only when its source has no build: the build id goes along
  (`apps/api/src/modules/deployments/service.ts:101`) and the existing revision comes back, although the function's
  events speak of a revision created.
- Counted from a command's creation, one delivery per five minutes holds when the clock of the first poll lagged the
  creation by at most a millisecond; `StalePollBreaksAge` breaks it for every larger lag. Counted from the first delivery
  it always holds. A command is handed out again only after its deadline exactly when the deadline lies within five
  minutes of the first poll's clock (`RedeliveryIsLateIff`).
- Any interval as long as a rate limit window admits at most `2 * max`, any shorter one `2 * max - 1`, and both are reached.
- A retained last piece of output is not a prefix of its line when the line starts with a byte order mark: decoding drops it.
- A build run that is closed can still flip by the statements alone (`ClosedRunFlipsWithoutLoop`); the worker loop prevents it.

## Model

| member | source | states |
|---|---|---|
| Workflow.ValidateGraph | apps/builder/src/workflow.ts:47-75 | no error exactly for distinct ids, known needs and an acyclic graph; each duplicate and each unknown need is reported exactly where it stands; a cycle error exactly when the graph has a cycle, and every reported path is a walk along needs that ends on an id already in it |
| Workflow.CycleFinder.Visit | apps/builder/src/workflow.ts:60-72 | the depth-first search over `visiting` and `visited` terminates with the ids outside both as measure, reports only closed walks, and leaves everything it visited finished |
| Workflow.FindCycles | apps/builder/src/workflow.ts:60-73 | the search from every id reports a cycle exactly when there is one, each report a real one |
| Workflow.StuckSetHasCycle | apps/builder/src/workflow.ts:62-72 | a set of ids each of which needs another of the set contains a cycle: why an unfinished search is a real cycle |
| Workflow.RankedGraphHasNoCycle | apps/builder/src/workflow.ts:62-72 | a graph whose ids finish in some order after their needs has no cycle: why a silent search proves acyclicity |
| Executor.InterleavingsAgree | apps/builder/src/executor.ts:42-69 | for fixed attempt results, every in-wave interleaving reaches the same final outcomes and runs the same attempts |
| Executor.StepKeepsInv | apps/builder/src/executor.ts:42-69 | what every interleaving step keeps: which wave decides a step, that skips follow from needs or conditions, and that attempts never exceed retries + 1 |
| Executor.RunsAreSound | apps/builder/src/executor.ts:42-69 | every state of every interleaved run satisfies that invariant, and none is a deadlock when the workflow was accepted |
| Executor.AcceptedNeverDeadlocks | apps/builder/src/executor.ts:45 | after an accepted validation no reachable state has pending steps and none ready |
| Executor.CompletionImpliesAccepted | apps/builder/src/executor.ts:42-45 | a run that decides every step proves the needs known and acyclic |
| Executor.DeadlockIffNotAccepted | apps/builder/src/executor.ts:45 | for distinct ids, a run without a rejection ends in the deadlock error if and only if validation would have failed |
| Executor.DecidedInDepthWave | apps/builder/src/executor.ts:42-48 | a decided step was decided in exactly the wave numbered by its longest chain of needs |
| Executor.SuccessIsClosed | apps/builder/src/executor.ts:48-50 | the transitive needs of a succeeded step succeeded, and whatever needs a step that did not succeed is skipped |
| Executor.NoGateSeesFailure | apps/builder/src/executor.ts:135-142 | no gate ever observes a failed outcome, so a `failure()` step is always skipped |
| Executor.GatesFollowConditions | apps/builder/src/executor.ts:46-66 | in every state of every interleaved run: a step that left `pending` is skipped exactly when a need did not succeed or its condition is `failure()` or `false`; it runs, succeeds or fails exactly when all needs succeeded and its condition is empty, `success()`, `always()` or `true`; any other condition throws; a step that ran succeeded exactly when it tolerates errors or one of its retries + 1 attempts did |
| Executor.WaveShrinksPending | apps/builder/src/executor.ts:44-47 | a wave takes at least one step out of the pending ones, which ends the loop over waves |
| Executor.NextLowersWork | apps/builder/src/executor.ts:42-69 | every interleaving step, be it a wave's start or the end of one attempt, uses up some of the work left |
| Executor.EveryRunEnds | apps/builder/src/executor.ts:42-69 | every interleaving has at most retries + 2 steps for each workflow step, and where it cannot go on it stands in the final state |
| Executor.RunStep | apps/builder/src/executor.ts:51-65 | the retry loop ends succeeded exactly when the step tolerates errors or one of its retries + 1 attempts succeeds, and failed otherwise |
| Executor.PassGates | apps/builder/src/executor.ts:46-50 | the synchronous part of a wave, in any order over its steps, leaves the same pending steps and skips |
| Executor.RunWaves | apps/builder/src/executor.ts:42-69 | the loop over the mutable maps ends in the state every interleaving ends in, which obeys the gates and attempts of every step; cancellation only when the signal was raised |
| Executor.RunGraph | apps/builder/src/executor.ts:39-70 | every outcome is the one its needs, its condition and its attempts dictate; completed exactly when nothing was rejected and nothing is pending, and then every step has an outcome that is not failed; rejected only when a step failed or a condition is none of the known ones; never the deadlock error for an accepted workflow |
| BuilderRuns.RunRepository.Create | apps/builder/src/postgres.ts:17-26 | one run per idempotency key: a known key returns its run and changes nothing, a new one gets a queued run without worker, lease, attempt or cancel request |
| BuilderRuns.RunRepository.Claim | apps/builder/src/postgres.ts:38-47 | the oldest queued run, if any, becomes running and the worker's, with one more attempt and a lease from now on, and nothing else changes; none exactly when no run is queued |
| BuilderRuns.RunRepository.Heartbeat | apps/builder/src/postgres.ts:49-52 | renewed exactly for an active run of that worker, whose lease then runs from now on; nothing else changes |
| BuilderRuns.RunRepository.MarkPushing | apps/builder/src/postgres.ts:54-57 | answers true exactly for a running run of that worker, which becomes pushing; nothing else changes |
| BuilderRuns.RunRepository.RecoverExpiredLeases | apps/builder/src/postgres.ts:59-62 | exactly the runs with an expired lease change; they are queued, unassigned, with attempt, key and cancel request kept; no expired lease is left; the count returned is theirs; a sound table stays sound |
| BuilderRuns.RunRepository.Complete | apps/builder/src/postgres.ts:66-68 | only the run of that id, and only for its recorded worker, is closed: cancelled when that was asked for and succeeded otherwise, without a lease, all else kept; a sound table stays sound |
| BuilderRuns.RunRepository.Fail | apps/builder/src/postgres.ts:70-72 | likewise with the verdict failed |
| BuilderRuns.RunRepository.RequestCancel | apps/builder/src/postgres.ts:74-77 | a queued run is cancelled at once with the flag set; an active one keeps status, worker and lease with the flag set; a closed one and every other run are left alone |
| BuilderRuns.StatementKeepsTable | apps/builder/src/postgres.ts:17-77 | under any statement by anyone: queued means no worker and no lease, active means both, a closed run is cancelled exactly when asked to be, keys stay unique and runs never vanish |
| BuilderRuns.UnexpiredLeaseIsHeld | apps/builder/src/postgres.ts:49-72 | while a lease is unexpired only statements of its holder change the status, worker or lease |
| BuilderRuns.RecoveryFencesHolder | apps/builder/src/postgres.ts:49-72 | after a recovery a late holder's heartbeat, push and result match nothing |
| BuilderRuns.TerminalStatusChangesIff | apps/builder/src/postgres.ts:66-72 | exactly when a statement can change a closed run: a contradicting result of the recorded worker |
| BuilderRuns.EventKeepsInv | apps/builder/src/worker.ts:33-56 | what every step of every slot's loop, crash, restart under the same id or outside statement keeps |
| BuilderRuns.EventKeepsHoldIff | apps/builder/src/worker.ts:33-37 | every active run stays the one its worker's slot is on, through every event but a restart; through a restart exactly when no active run names the id |
| BuilderRuns.RestartTakesSecondRun | apps/builder/src/worker.ts:34-37 | and after any other restart the slot can claim a second run beside its active one |
| BuilderRuns.OneRunPerSlot | apps/builder/src/worker.ts:33-56 | in every history without such a restart each slot has at most one active run |
| BuilderRuns.TerminalIsForever | apps/builder/src/worker.ts:33-56 | under the worker loop, crashes and restarts included, a closed run keeps its status in every later state of every history |
| BuilderRuns.HistoryProperties | apps/builder/src/worker.ts:33-56 | in every history: at most one run per key, successful pushes never exceed attempts, cancelled exactly when asked, and worker and lease fit the status |
| BuilderRuns.OnePushPerClaim | apps/builder/src/postgres.ts:54-57 | two pushes of a run that both go through belong to different claims |
| BuilderRuns.OnePushPerExecution | apps/builder/src/postgres.ts:54-57 | while a worker executes one claim, a second push is refused, even after its lease was lost |
| BuildGate.OneAttemptPasses | apps/builder/src/executor.ts:73-74 | in one execution at most one attempt of one build step gets through the gate |
| BuildGate.OneBuildPerExecution | apps/builder/src/executor.ts:51-74 | however attempts interleave, at most one build step earns its success in one execution, at the one attempt that passed |
| BuildGate.SecondBuildPreventsCompletion | apps/builder/src/executor.ts:42-74 | of two build steps that may not fail, a run that completes within one claim has skipped one |
| BuilderRuns.ClosedRunFlipsWithoutLoop | apps/builder/src/postgres.ts:66-72 | the statements alone do not make closed states final: a concrete run flips |
| Metrics.EndsForgetResets | apps/api/src/features/metrics/service.ts:45-48 | keeping only the ends of a series loses exactly the growth hidden by counter resets, never a negative amount, and nothing without resets |
| Metrics.GroupKeepsEnds | apps/api/src/features/metrics/postgres-provider.ts:14-28 | downsampling keeps of each workload and bucket exactly the first and the last sample |
| Metrics.PrevIsKept | apps/api/src/features/metrics/service.ts:40-42 | a sample alone in its bucket borrows the same previous sample before and after downsampling |
| Metrics.WorkloadRateLoses | apps/api/src/features/metrics/service.ts:36-50 | one workload's rate before downsampling is its rate after plus exactly what was lost |
| Metrics.DownsamplingNeverRaises | apps/api/src/features/metrics/postgres-provider.ts:13-30 | downsampling never raises a bucket's rate and leaves it equal exactly when no workload's ends hide growth, in particular when no counter resets in the bucket |
| Metrics.DownsamplingKeepsBuckets | apps/api/src/features/metrics/postgres-provider.ts:13-30 | no bucket appears or disappears |
| Metrics.IndexPrevious | apps/api/src/features/metrics/service.ts:7-13 | the sorted sweep maps each sample to the latest earlier one of its workload |
| Metrics.FillBuckets | apps/api/src/features/metrics/service.ts:14-20 | the bucket map holds each bucket's samples in order, its keys sorted |
| Metrics.Aggregate | apps/api/src/features/metrics/service.ts:5-53 | one entry for each occupied bucket in time order, with the reset-aware rate of each of the four counters; what the rates are in terms of the sample columns is the subject of the four rows after it |
| MetricsLaws.RatesAreColumnRates | apps/api/src/features/metrics/service.ts:36-51 | of any output of the aggregation: the four rates of a bucket are those of received, sent, read and written bytes: the sum over the workloads in it of the rise of that column per second, resets counted from zero, over at least one second |
| MetricsLaws.SteadyBucket | apps/api/src/features/metrics/service.ts:36-51 | where every workload has two samples in the bucket and no counter falls, each rate is the sum over workloads of last minus first divided by their distance in seconds, at least one |
| MetricsLaws.PairContributes | apps/api/src/features/metrics/service.ts:39-48 | two samples, both of the bucket or one borrowed from before it, contribute their difference per second, or after a fall the new value |
| MetricsLaws.BucketsAreSpans | apps/api/src/features/metrics/service.ts:14-20 | the timestamps are exactly the multiples of the width whose span holds a sample, and a workload's series in a bucket is its samples of that span |
| Metrics.DownsampledAggregation | apps/api/src/features/metrics/service.ts:5-53 | what a caller sees: the same buckets at the same times with rates that never rose, and did not fall exactly when nothing was hidden |
| Ports.WalkCoversRange | packages/core/src/network/ports.ts:21-22 | the walk from any hash offset meets every port of the dynamic range |
| Ports.ChooseDynamicHostPort | packages/core/src/network/ports.ts:17-26 | the first free port of the walk from the seed's offset, within 30000 to 39999 and allowed by the policy; none exactly when all ten thousand are occupied |
| Ports.PolicyErrorsMean | packages/core/src/network/ports.ts:10-15 | a port is refused as invalid outside 1 to 65535, as privileged below 1024, as reserved when the host needs it, and otherwise allowed |
| Ports.AssignHostPorts | apps/api/src/modules/deployments/controller.ts:167-181 | the assignment the list, the active reservations and the seeds determine; each public port gets its fixed port or a dynamic one; it fails exactly when a search met a range taken by the reservations and the ports assigned before it |
| Ports.FailsIff | apps/api/src/modules/deployments/controller.ts:170-181 | fewer ports than public ones are assigned exactly when some search failed |
| Ports.NextIsFree | apps/api/src/modules/deployments/controller.ts:170-177 | with safe ports the next one clashes with no reservation and no port assigned before it |
| Ports.SafeIsClean | apps/api/src/modules/deployments/controller.ts:170-177 | with safe ports all assigned ones are pairwise distinct and apart from the active reservations, whatever the seeds |
| Ports.OthersSucceedToo | apps/api/src/modules/deployments/controller.ts:170-177 | where one assignment succeeds without a clash, one from any other seeds succeeds and takes no more of the range |
| Ports.OffsetIsReached | packages/core/src/network/ports.ts:19-20 | the hash reaches every offset, whatever the seed ends in |
| Ports.SeedOffsetSnoc | packages/core/src/network/ports.ts:19-20 | the offset takes in one character after the other: times 31, plus its code or its high surrogate beyond the basic plane, modulo ten thousand |
| Ports.DistinctIffSafe | apps/api/src/modules/deployments/controller.ts:167-181 | where an assignment succeeds at all, it is distinct for every workload id exactly when fixed ports differ, none is reserved, and none of the dynamic range follows a searched port of its protocol |
| Ports.CommandCarriesReservations | apps/api/src/modules/deployments/controller.ts:182-188 | the command's ports are exactly the reserved ones, each at its own container port, private ports untouched |
| Scheduler.Reasons | packages/core/src/control-plane/scheduler.ts:12-43 | exactly the violated constraints are reported, each stated by the columns of node and request, and none exactly for an eligible node |
| Scheduler.ScheduleWorkload | packages/core/src/control-plane/scheduler.ts:7-55 | an eligible node that none beats by score and then id; none exactly when no node is eligible |
| Scheduler.BeforeIsByFreeShares | packages/core/src/control-plane/scheduler.ts:49-68 | one candidate beats another exactly by a larger sum of the free shares of CPU, memory and storage, at equal sums by the smaller id |
| Scheduler.ChosenHasMostFree | packages/core/src/control-plane/scheduler.ts:49-68 | the chosen node has the most free shares of all eligible nodes, and the smallest id among equals |
| Scheduler.DecisionIsUnique | packages/core/src/control-plane/scheduler.ts:49-54 | the decision depends on the set of nodes, not on their order |
| Scheduler.LosingOthersKeepsTheDecision | packages/core/src/control-plane/scheduler.ts:49-54 | nodes other than the chosen one may vanish without changing the decision |
| Scheduler.PinnedDecision | packages/core/src/control-plane/scheduler.ts:20-21 | with a required node the answer is that node or none, none exactly when it is not eligible |
| Scheduler.PinningTheChoice | packages/core/src/control-plane/scheduler.ts:20-21 | pinning the node that would be chosen changes nothing |
| Scheduler.ChosenHasRoom | packages/core/src/control-plane/scheduler.ts:22-43 | the chosen node has room for all three resources and none of the requested host ports is reserved on it |
| Lifecycle.RunningIffAllServe | apps/api/src/modules/deployments/lifecycle.ts:4-18 | status running says exactly that enough workloads are wanted and every wanted one is up and healthy |
| Lifecycle.TroubleAlwaysShows | apps/api/src/modules/deployments/lifecycle.ts:9-14 | a wanted workload that is lost, failed or unhealthy makes the status degraded or failed, whatever the others do; a lost one always degraded |
| Lifecycle.StatusesMean | apps/api/src/modules/deployments/lifecycle.ts:4-18 | each status by what the wanted workloads show, in the order the facts are looked at |
| Liveness.Fleet.Tick | apps/api/src/modules/nodes/liveness-controller.ts:20-105 | the whole new state of nodes, volumes, workloads and stop commands after one undisturbed tick; its columns are the next two rows |
| Liveness.SilenceTurns | apps/api/src/modules/nodes/liveness-controller.ts:28-48 | every column of every node after a tick: unhealthy after 45 s of silence in service, offline after 90 s in service or unhealthy, with the time of either, all else kept |
| Liveness.TickWrites | apps/api/src/modules/nodes/liveness-controller.ts:49-94 | what a node taken offline carried: its wanted workloads are lost with unknown health, without volumes retired and told to stop, its usable volumes unavailable, all else kept |
| Liveness.Fleet.Heartbeat | apps/api/src/routes/nodes.routes.ts:361-383 | the node's status, heartbeat time and both outage times, and its unavailable volumes back in use when it reports ready; every other node, volume and workload kept |
| Liveness.Fleet.Receive | apps/api/src/routes/nodes.routes.ts:528-548 | a batch is accepted exactly when every report is of a different workload of that node, of its generation, within the time window and newer than the last; then every named workload gets the reported state, health, time and failure count, all else kept; otherwise nothing changes |
| Liveness.OneMoreNode | apps/api/src/modules/nodes/liveness-controller.ts:49-104 | losing stale nodes one by one is losing them all at once: each touches only what it carries |
| Liveness.OfflineIffSilent | apps/api/src/modules/nodes/liveness-controller.ts:28-48 | a node goes offline exactly when it was in service or unhealthy and silent for more than 90 s; no node stays ready after 45 s of silence |
| Liveness.TickIsIdempotent | apps/api/src/modules/nodes/liveness-controller.ts:28-48 | a second tick with the same clock changes no node and takes none offline |
| Liveness.LossIsContained | apps/api/src/modules/nodes/liveness-controller.ts:50-94 | on a lost node only volume-backed workloads stay wanted, no volume stays usable or moves, and nothing elsewhere changes |
| Liveness.HeartbeatProtects | apps/api/src/modules/nodes/liveness-controller.ts:36-48 | in every interleaving of ticks, heartbeats and other writers, statement by statement: a ready heartbeat keeps its node ready and out of any tick's hands for 45 s, even from a tick that began before it |
| Liveness.FailuresCountTheStreak | apps/api/src/routes/nodes.routes.ts:546 | in every such run, through losses, placements and retirements: the failure counter is the number of the latest applied reports that were unhealthy in a row, shows in the health, and reports were applied in the order they were observed |
| Liveness.AppliedReportsStayRefused | apps/api/src/routes/nodes.routes.ts:543-546 | in every such run: once a report was applied, no batch with it or an older one on its workload is ever accepted, and no update of it matches |
| ReconcilerLaws.ClaimsIff | apps/api/src/modules/deployments/controller.ts:32-40 | a claim takes the lease for 60 s from the pass's stamp exactly when none is stored or it ended before that; otherwise the pass is over |
| ReconcilerLaws.ReleaseWrites | apps/api/src/modules/deployments/controller.ts:43-48 | a release clears the lease exactly when it is the pass's own, and changes nothing else |
| ReconcilerLaws.UnwantedIsRetired | apps/api/src/modules/deployments/controller.ts:62-69 | a deployment not wanted running has exactly the workloads retired that are not yet deleted, or stopped |
| ReconcilerLaws.WantedGoesOn | apps/api/src/modules/deployments/controller.ts:71-86 | fixed host ports end a pass exactly with more than one replica and are otherwise asked for; volumes are checked exactly when a managed one is mounted |
| ReconcilerLaws.ChecksVolumes | apps/api/src/modules/deployments/controller.ts:86-101 | a pass ends exactly when a mounted volume is missing, mounted twice, not usable, or two are bound to different nodes; else it pins the node the bound ones share |
| ReconcilerLaws.DecidesOnRows | apps/api/src/modules/deployments/controller.ts:102-128 | by the columns of the rows it read: which workloads a pass retires as broken, how many it counts as missing, and when it resets the recovery |
| ReconcilerLaws.RetireAndResetWrite | apps/api/src/modules/deployments/controller.ts:106-128 | the columns a retirement and a reset write |
| ReconcilerLaws.ChoosesIff | apps/api/src/modules/deployments/controller.ts:131-140 | a pass goes on to choose a node exactly while one is missing, nobody has to intervene and no backoff runs |
| ReconcilerLaws.SchedulesOn | apps/api/src/modules/deployments/controller.ts:137-143 | with an eligible node among the candidates a pass goes on with one, by way of the volume claim exactly when a managed volume is mounted; without one it ends |
| ReconcilerLaws.ClaimBindsUnbound | apps/api/src/modules/deployments/controller.ts:147-149 | a claim binds exactly the mounted volumes without a node to the target and puts them in use |
| ReconcilerLaws.ClaimsDecide | apps/api/src/modules/deployments/controller.ts:150-164 | reading the claims confirms the target, retries on the one node the bound volumes share, or gives up |
| ReconcilerLaws.PlacementRecoversIff | apps/api/src/modules/deployments/controller.ts:189-213 | a placement is a recovery exactly when a row the pass read is lost, failed or three times unhealthy: then it stores one more attempt, backoff until 30 s doubled per attempt have passed, and one log entry; otherwise it leaves the recovery columns and the log alone |
| ReconcilerLaws.EscalatesIff | apps/api/src/modules/deployments/controller.ts:195-202 | a pass about to place escalates exactly when such a row was read and five attempts are stored, or more than five are; otherwise it may place |
| ReconcilerLaws.EscalationWrites | apps/api/src/modules/deployments/controller.ts:196-202 | an escalation stores manual intervention, ends the pass and changes nothing else |
| ReconcilerLaws.PlacementInserts | apps/api/src/modules/deployments/controller.ts:203-222 | a placement inserts one pending workload on the target, wanted running, and stores the target as required node exactly for a deployment with volumes and none yet |
| ReconcilerRequests.SaveWrites | apps/api/src/modules/deployments/controller.ts:99 | saving stores the requirements of the pass and changes nothing else of the row |
| ReconcilerRequests.RequestsStay | apps/api/src/modules/deployments/controller.ts:56-82 | in every run, whatever passes save and read back: a pass that schedules, claims or places asks for the amounts, runtime, architecture, region and labels the deployment first asked for, and for exactly its fixed host ports |
| ReconcilerAffinity.NodeIsWrittenOnce | apps/api/src/modules/deployments/controller.ts:147-149 | no step of any pass or of the environment rewrites a volume's node |
| ReconcilerAffinity.StepKeepsInv | apps/api/src/modules/deployments/controller.ts:84-164 | what every interleaving keeps about claims, retries and placements, without the lease |
| ReconcilerAffinity.BoundOnce | apps/api/src/modules/deployments/controller.ts:147-149 | over whole runs: a managed volume bound to a node keeps it as long as it exists |
| ReconcilerAffinity.OneNodeForever | apps/api/src/modules/deployments/controller.ts:84-164 | over whole runs: all workloads of a deployment with managed volumes are on one node, and every such volume that still exists is bound to it |
| ReconcilerAffinity.RetriesOnce | apps/api/src/modules/deployments/controller.ts:156-161 | over whole runs: a pass takes the retry branch at most once in all, and never after it has placed a workload |
| ReconcilerLease.StepKeepsLeaseInv | apps/api/src/modules/deployments/controller.ts:29-49 | while passes end within their lease, every pass past its claim holds the stored lease |
| ReconcilerLease.OneAtWork | apps/api/src/modules/deployments/controller.ts:32-40 | hence at most one pass is past its claim |
| ReconcilerLease.ReleaseSparesSuccessor | apps/api/src/modules/deployments/controller.ts:43-48 | a release, however late, leaves another pass's lease in place |
| ReconcilerReplicas.StepKeepsHolderInv | apps/api/src/modules/deployments/controller.ts:116-242 | the accounting every event keeps as long as placements are made by the lease holder: wanted workloads are the active ones the holder read plus the ones it created |
| ReconcilerReplicas.NeverTooMany | apps/api/src/modules/deployments/controller.ts:116-242 | in every run whose placements are made by the pass whose lease is stored, never more workloads wanted running than replicas, however long passes take |
| ReconcilerReplicas.ExcessNeedsLostLease | apps/api/src/modules/deployments/controller.ts:29-49 | every run with more contains a placement by a pass that had lost its lease |
| ReconcilerReplicas.NeverTooManyInTime | apps/api/src/modules/deployments/controller.ts:29-49 | passes that end within their lease are one at a time past their claim and place as holders, so the bound holds |
| ReconcilerReplicas.NobodyReturns | apps/api/src/modules/deployments/controller.ts:298-333 | in every run: no workload is wanted running again or changes node, no lost stateless one is wanted running, and the failure counter shows in the health |
| ReconcilerReplicas.FixedPortsNeedOneReplica | apps/api/src/modules/deployments/controller.ts:73-82 | with fixed host ports and more than one replica no run creates any workload |
| ReconcilerRecovery.BackoffDoubles | apps/api/src/modules/deployments/controller.ts:212 | for the five attempts the backoff is 30 s doubled each time and never reaches its cap |
| ReconcilerRecovery.AttemptsNeverExceedFive | apps/api/src/modules/deployments/controller.ts:195-202 | in every run, lease or not, the recovery counter stays within five |
| ReconcilerRecovery.PlacementsBackOff | apps/api/src/modules/deployments/controller.ts:136-213 | in every run whose passes place, reset and escalate while they hold the stored lease: recovery placements of one number belong to one pass; between number k and any higher one lie at least 30 s * 2^(k-1) |
| ReconcilerRecovery.EscalationIsLate | apps/api/src/modules/deployments/controller.ts:195-202 | in every such run manual intervention comes no sooner than 930 s after the first recovery placement, and replicas are missing ever since |
| ReconcilerRecovery.EscalationIsForever | apps/api/src/modules/deployments/controller.ts:123-135 | in every such run manual intervention is never left and no workload is created after it |
| ReconcilerRecovery.TimelyIsWriterRun | apps/api/src/modules/deployments/controller.ts:29-49 | runs whose passes end within their lease are such runs |
| ReconcilerHome.VolumesStayOnOneNode | apps/api/src/modules/deployments/controller.ts:203-210 | in every run whose placements are made by the lease holder, a deployment with any volumes, managed or only named, has all its workloads on one node |
| ReconcilerQuiet.RunningIsLeftAlone | apps/api/src/modules/deployments/controller.ts:102-128 | a pass that reads rows whose derived status is running creates no workload, retires none and does not escalate, whatever happens around it |
| ReconcilerQuiet.OutlivedLeasePlacesTwice | apps/api/src/modules/deployments/controller.ts:29-49 | the condition is needed: a concrete run with one replica and two wanted workloads |
| Placements.Database.ReservationsByNode | apps/api/src/modules/deployments/controller.ts:342-365 | the sweep over the rows yields each node's summed requirements, absent exactly when nothing counts |
| Placements.Database.LoadCandidates | apps/api/src/modules/deployments/controller.ts:335-383 | in order exactly the nodes that report resources, each with its record's id, status, scheduling switch, architecture, region, labels, runtimes and allocatable amounts, the larger of reported and scheduled reservations, and its active host ports |
| Placements.ScheduledIsSum | apps/api/src/modules/deployments/controller.ts:342-365 | what a node is charged is the sum of the required CPU, memory and storage of its workloads that are not stopped |
| Placements.CandidatesMirror | apps/api/src/modules/deployments/controller.ts:366-383 | every candidate equals its node record column by column |
| Placements.Reserve | apps/api/src/modules/deployments/controller.ts:406-416 | in place, the first candidate with the id carries the requirements as well; all others are untouched |
| Placements.ReservingCovers | apps/api/src/modules/deployments/controller.ts:251-252 | after a reservation the candidates still cover what a fresh load would compute from the inserted row |
| Placements.Database.PlaceMissing | apps/api/src/modules/deployments/controller.ts:130-253 | the whole effect of an uninterrupted placement loop: which node each workload gets, a recorded one that is ready, open for scheduling and offers the runtime, architecture, region, labels and required node asked for; which ports, the reservations and pinned requirements left, when it stops early and why, that capacity is kept and that reservations stay unique |
| Placements.ChosenIsAdmitted | apps/api/src/modules/deployments/controller.ts:130-252 | workloads chosen in turn with in-memory reservations each fit beside all rows before them |
| Placements.PlacementsSuit | apps/api/src/modules/deployments/controller.ts:130-252 | every workload chosen in turn is on a recorded node that is ready, open for scheduling and suits the request |
| Placements.AdmissionKeepsCapacity | packages/core/src/control-plane/scheduler.ts:29-43 | rows that fit one after another keep every node within what it can allocate |
| Placements.NewReservationsAreUnique | apps/api/src/modules/deployments/controller.ts:167-177 | the reservations of a placement repeat none of the node's active ones |
| Placements.PersistentStaysTogether | apps/api/src/modules/deployments/controller.ts:203-205 | all placements of one pass of a deployment with volumes are on one node, the required one if there is one |
| Capacity.StepKeepsCapacity | apps/api/src/modules/deployments/controller.ts:335-416 | what each pass, report, new node, new deployment or observation keeps |
| Capacity.CapacityForever | apps/api/src/modules/deployments/controller.ts:335-416 | over any serial history with fixed allocatable values and no revival, the summed CPU, memory and storage of the workloads of a node that are not stopped never exceed what it can allocate |
| Capacity.RevivalKeepsCapacityIff | apps/api/src/routes/nodes.routes.ts:546 | a report that revives a stopped workload keeps capacity exactly when the node still has room for it |
| Commands.CommandTable.Poll | apps/api/src/routes/nodes.routes.ts:394-441 | exactly the pending commands of the node and those delivered more than five minutes ago become delivered now with one more attempt, and are handed out |
| Commands.CommandTable.ApplyResult | apps/api/src/routes/nodes.routes.ts:578-611 | a result is accepted exactly for a delivered command of the node, which succeeds when the agent says so and a start names its runtime, and fails otherwise; no other command changes |
| Commands.CommandTable.TimeOut | apps/api/src/modules/commands/controller.ts:12-33 | exactly the pending and delivered starts, stops and deletions past their deadline fail |
| Commands.HandsOutExactlyDeliverable | apps/api/src/routes/nodes.routes.ts:417-441 | what a poll returns is what was deliverable, each with its new lease |
| Commands.DeliveriesAreLeased | apps/api/src/routes/nodes.routes.ts:400-438 | in every run any two deliveries are more than five minutes apart, so attempts stay within one per lease since the first |
| Commands.AttemptsWithinAge | apps/api/src/routes/nodes.routes.ts:400-438 | counted from the creation the bound holds when the first poll's clock lagged it by at most a millisecond |
| Commands.StalePollBreaksAge | apps/api/src/routes/nodes.routes.ts:400-438 | and for every larger lag there is a run that breaks it |
| Commands.RedeliveryIsLateIff | apps/api/src/routes/nodes.routes.ts:400-438 | a command first handed out at a given clock is handed out again only after its deadline in every run, exactly when the deadline lies at most five minutes after that clock |
| Commands.EarlyRedelivery | apps/api/src/routes/nodes.routes.ts:400-438 | otherwise a run hands it out again by the deadline |
| Commands.RedeliveredIsExpired | apps/api/src/modules/commands/controller.ts:17-22 | so a lifecycle command whose two-minute deadline was set at most three minutes after its first poll's clock only waits for its timeout once it is handed out again |
| Commands.OneOutcome | apps/api/src/routes/nodes.routes.ts:585-594 | at most one result or timeout is ever applied, and nothing changes after it |
| Commands.OutcomeHasCause | apps/api/src/modules/commands/controller.ts:14-31 | an outcome needs a delivery or a missed deadline; a start succeeds only with a runtime id |
| RateLimit.MemoryStore.Increment | packages/core/src/firewall/rate-limit.ts:29-39 | the whole new map and the returned entry: within a window one more under its reset time, otherwise one under a new window |
| RateLimit.MemoryStore.Cleanup | packages/core/src/firewall/rate-limit.ts:49-54 | exactly the ended windows are dropped |
| RateLimit.PostgresStore.Increment | packages/core/src/firewall/rate-limit.ts:93-113 | the upsert's row and returned entry, column by column |
| RateLimit.CleanupIsInvisible | packages/core/src/firewall/rate-limit.ts:29-54 | under a clock that never goes back, cleanups at any time change no returned count or reset time |
| RateLimit.StoresAgree | packages/core/src/firewall/rate-limit.ts:29-113 | the memory store and the upsert answer alike for the same calls, whatever each cleans up and when |
| RateLimit.AtMostTwiceMax | packages/core/src/firewall/rate-limit.ts:199-214 | for one key an interval as long as the window admits at most 2 * max requests, a shorter one at most 2 * max - 1 |
| RateLimit.TwoWindowsAdmit | packages/core/src/firewall/rate-limit.ts:199-214 | time-ordered runs of one limiter reach both bounds, for every window length and maximum |
| ProcessOutput.Output.Retain | apps/builder/src/process.ts:44-69 | a line that fits with one byte more is kept and charged for, one that does not is cut and ends the budget, and from then on lines are dropped; kept lines and one notice are called back in order |
| ProcessOutput.Output.Consume | apps/builder/src/process.ts:74-88 | one chunk: completed lines are offered, the rest stays pending or is flushed when too long |
| ProcessOutput.Fitting | apps/builder/src/process.ts:58-62 | the longest prefix of complete characters within the budget (section 3 of RFC 3629 gives their lengths) |
| ProcessOutputLaws.BytesAreEncoded | apps/builder/src/process.ts:51 | a text is charged the length of its UTF-8 encoding, section 3 of RFC 3629 |
| ProcessOutputLaws.CutPieceIsDecoded | apps/builder/src/process.ts:58-62 | the cut piece is what a streaming UTF-8 decoder makes of the first bytes of the line's encoding that remain, without an incomplete last character and a leading byte order mark |
| ProcessOutputLaws.DecodesWhatWasEncoded | apps/builder/src/process.ts:58-62 | decoding a whole encoding gives the text back |
| ProcessOutput.CutIsPrefixIff | apps/builder/src/process.ts:58-62 | the cut piece begins its line except when decoding dropped a byte order mark in front of other characters |
| ProcessOutput.CaptureIsBounded | apps/builder/src/process.ts:37-92 | for any interleaving of both streams: retained bytes plus one per piece within the limit, the notice at most once, each stream a prefix of its offered lines with only the last cut, everything kept while the budget lasts, and callbacks that saw exactly the kept lines |
| ProcessOutput.SplitResumes | apps/builder/src/process.ts:78-80 | splitting at line ends can be resumed from the pending rest, even between a carriage return and its line feed |
| ProcessOutputLaws.SplitLosesOnlyEnds | apps/builder/src/process.ts:79 | the pieces of a text hold no line feed, and the text is these pieces with line feeds between them, each with a carriage return in front wherever there is one |
| ProcessOutputLaws.SplitsWhereJoined | apps/builder/src/process.ts:79 | pieces joined by such line ends are split exactly where they were joined |
| ProcessOutputLaws.PendingStaysShort | apps/builder/src/process.ts:82-87 | after any chunks of both streams less than 64 KiB of an unfinished line are held for each |
| ProcessOutput.ChunkingDoesNotMatter | apps/builder/src/process.ts:70-92 | below both limits the kept lines are the lines of the whole texts, however they were chunked and interleaved |
| LogFrames.DecodeDockerLogFrames | apps/agent/src/runtime/container-runtime.ts:375-386 | the loop shows the payloads of the frames, or the data when it is not framed |
| LogFrames.ReadsWhatWasWritten | apps/agent/src/runtime/container-runtime.ts:377-384 | frames written at any offset are read back from there, whatever rest shorter than a header follows |
| LogFrames.WroteWhatIsRead | apps/agent/src/runtime/container-runtime.ts:377-384 | what is read as frames is the encoding of those frames and a rest shorter than a header |
| LogFrames.FramedPathIff | apps/agent/src/runtime/container-runtime.ts:375-386 | the framed path is taken exactly for the encoding of frames followed by fewer than eight bytes |
| LogFrames.RoundTrip | apps/agent/src/runtime/container-runtime.ts:375-386 | decoding the encoding of any non-empty list of frames gives back their payloads |
| LogFrames.OtherwiseUnchanged | apps/agent/src/runtime/container-runtime.ts:381-385 | any other data is shown as it is |
| LogFrames.FramingIsUnique | apps/agent/src/runtime/container-runtime.ts:375-386 | no data can be framed in two ways |
| LogFrames.HeaderIsBigEndian | apps/agent/src/runtime/container-runtime.ts:377-384 | a frame is four bytes, the length of its payload with the most significant byte first, and the payload |
| Revisions.RevisionStore.CreateDeployment | apps/api/src/modules/deployments/service.ts:29-83 | undisturbed: the build's revision if there is one, otherwise one more revision of that application and build, whose version follows the highest one |
| Revisions.RevisionStore.Rollback | apps/api/src/modules/deployments/service.ts:86-106 | undisturbed: the source itself when it has a build, otherwise a fresh revision |
| Revisions.RevisionStore.Redeploy | apps/api/src/modules/deployments/service.ts:109-128 | undisturbed: always a fresh revision |
| Revisions.InsertKeepsSound | packages/db/src/database/schema/control-plane.ts:148-151 | an insert the unique indexes let pass continues the versions without a gap |
| Revisions.ConflictMeansProgress | apps/api/src/modules/deployments/service.ts:78-80 | a conflict means another revision of the application or build was inserted after this attempt had looked |
| Revisions.VersionsAreConsecutive | apps/api/src/modules/deployments/service.ts:29-83 | in every run of concurrent creators each application's versions are exactly 1 to n, and no two revisions share a build |
| Revisions.ExhaustionMeansProgress | apps/api/src/modules/deployments/service.ts:34-80 | a creator gives up for conflicts only after at least four other revisions were inserted while it tried |
| Revisions.RollbackIsFreshIff | apps/api/src/modules/deployments/service.ts:86-106 | in every run a rollback makes a fresh revision exactly when its source has no build, and otherwise returns the source |
| Revisions.RedeploymentIsFresh | apps/api/src/modules/deployments/service.ts:109-128 | in every run a redeployment that returns has made a fresh revision |

## Left out

- The reconciler's interleaved protocol is a transition system over values, because Dafny methods do not interleave; the placement loop in `placement.dfy` is the in-place form of its uninterrupted part.
- Overcommitment by passes of different deployments that interleave: capacity is proved for passes one after another, since each loads its candidates once.
- Placements.Database.PlaceMissing: leaves the volume claims and the recovery checks inside the loop to `reconciler.dfy`; resource quantities are integers.
- Ports.DistinctIffSafe: workload ids are arbitrary strings; the unique index on active host ports, which turns some clashes into a failed placement, lives in a migration that is not part of this model.
- BuilderRuns.TerminalIsForever: two processes that live at once under one configured worker id, and a result whose acknowledgement is lost, so that the loop reports again, are not modelled.
- Liveness.Fleet.Receive: the reads and the guarded updates of a batch are one step; in the interleaved runs each update stands alone. Published ports are not modelled.
- Liveness.Fleet.Tick: undisturbed; its statements interleave with the other writers in the runs of the same file. Registration, which makes a node provisioning again, is not modelled.
- Deleted nodes: a node's workloads and volumes keep its id for ever in the model.
- The status and failure text of deployments, events, the application's cached status, and the timers that start passes and ticks.
- Commands.CommandTable.ApplyResult: the statement that turns a start without a runtime id into a failure is separate in the source; here both are one step. The rows of workloads and ports a result also updates are not modelled there.
- Build run secrets, inputs, logs and metadata; the executor's step bodies, which succeed or fail as given.
- Metrics.Aggregate: CPU and memory averages and maxima; the provider's writing and expiry.
- The Redis store, the response headers and the key generators of the rate limiter; an entry returned by the memory store is an alias of the stored one, compared here at its return.
- Decoding of bytes into text, including text split inside a character between chunks or frames, and the byte order mark at the start of a stream.
- Docker, S3, the registry, Traefik, DNS, BuildKit, Firecracker, sessions, mail, encryption and the dashboard.
