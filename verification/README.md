# Matter Loop, verified

Dafny models of the parts of Matter Loop where the state is shared, concurrent or counted, with proofs over every input
and every run.

| files | what they model |
|---|---|
| LeaseQueue, LeaseQueueModel, LeaseQueueRuns, LeaseQueueOrder, SortedSets | the Redis lease queue: five scripts over eight keys, the abstract queue they encode, and whole runs of it |
| Usage, UsageRuns, UsageAnswers, Metering, MeteredCalls | the usage ledger, the token rates, and any number of metered model calls on one ledger |
| RunRepository, RepositoryRuns, ClaimProtocol, ClaimConclusions | the versioned run record in its Redis keys, and the Celery workers that claim it |
| ContextStore, ContextKeys | context versions that expire, the key of a context scope, the Redis keys made from it |
| SpanExport, TraceBuilder, TraceDelivery, Pipeline, PipelineProgress | from the lifecycle events of many runs through the batching pipeline to exported traces |
| ComponentContainer, ContainerOperations, ModelRegistry, RegistryOperations | borrowing and hot replacement |
| Utf8, PayloadPreview, IntentResolution, Text, Common | UTF-8 and truncation, intent conflicts, helpers |

Each stateful part has the same shape. Total functions say what a step does to a value of the state; a class runs the
step as the source does, with its loops, and every method is proved to agree with its function; lemmas about the
functions then say what single steps and whole runs achieve, in the fields of limits, records, spans and keys rather
than through the functions. A run is a sequence of commands or events, and `After` is the state it leads to. Where
suspended operations interleave (claims, pipeline, container), the stretches between two suspensions are the events of a
state machine. A Lua script and a body under a lock are one step each.

The proofs found places where the code does less than one might expect; each has its exact condition and a witness:

- `BatchingPipeline.shutdown` sets the stop flag before it puts the sentinel. A worker that wakes in between leaves, and the
  flush at the end of `shutdown` never returns (`Pipeline.FlushReturnsUnlessLate`, `Pipeline.ShutdownCanStrand`).
- `RuntimeContainer.aclose` closes a component twice if its last borrower leaves while the loop awaits another component
  (`ComponentContainer.ClosedOnceUnlessDrainedInLine`, `ComponentContainer.SweepCanCloseTwice`).
- `TraceBuilder` drops a verifier or reviewer span when its role opens again before it closes
  (`TraceBuilder.EmitsSurviving`, `TraceBuilder.OpenedTwiceIsLost`).
- The record key of a run called "index" is the key of the run index. Created first, that run spoils the repository for
  good; created later, it is reported a duplicate that was never stored
  (`RepositoryRuns.InOrderExactlyUnlessIndexFirst`, `RunRepository.CreatesExactlyUnlessIndex`).
- A reservation covers the charge under every rate card exactly when cache hits and misses together stay within the input
  estimate, besides the other bounds (`Metering.CoversExactlyTheEstimated`, `Metering.CachedTokensCountTogether`).
- Intent resolution depends on the order of the candidates exactly when two different candidates of one name tie for best
  (`IntentResolution.OrderMattersExactlyForTies`, `IntentResolution.TieShows`).
- Context versions are immutable only as long as no save shortens the head's time to live
  (`ContextStore.LiveVersionsAreImmutable`, `ContextStore.ShorteningOverwrites`).

Assumptions: lease identifiers are fresh over a whole run (`uuid4`). In the claim protocol the run record exists and is
never deleted. The clock of the context store and of the workers does not run backwards; the lease queue needs no such
assumption.

`dafny verify dfyconfig.toml` checks everything.

## Model

| member | source | states |
|---|---|---|
| LeaseQueueModel.EncodingIsFaithful | matterloop-integration-redis/src/python/matterloop_integration_redis/queue.py:15-143 | The eight keys hold the same information as one phase per run and the order of the waiting runs: keys are equal exactly when the queues they encode are |
| LeaseQueueModel.EnqueueRefines | matterloop-integration-redis/src/python/matterloop_integration_redis/queue.py:15-25 | Enqueuing a run is one step of that queue, refused for a known run |
| LeaseQueueModel.RefreshAtOnce | matterloop-integration-redis/src/python/matterloop_integration_redis/queue.py:28-53 | Promoting due runs and reclaiming expired leases one by one puts due runs at the back by due time and expired runs at the front, latest expiry first, drops the cancelled ones and adds an attempt to the others |
| LeaseQueueModel.PopRefines | matterloop-integration-redis/src/python/matterloop_integration_redis/queue.py:55-79 | The pop loop delivers on its first pop: a waiting run is never cancelled or unknown |
| LeaseQueueModel.LeaseRefines | matterloop-integration-redis/src/python/matterloop_integration_redis/queue.py:27-80 | The whole lease script is one step of the queue and delivers the same job with the same attempt |
| LeaseQueueModel.AcknowledgeRefines | matterloop-integration-redis/src/python/matterloop_integration_redis/queue.py:82-99 | Acknowledging removes the run exactly when it is on that lease, and else changes nothing |
| LeaseQueueModel.ReleaseRefines | matterloop-integration-redis/src/python/matterloop_integration_redis/queue.py:101-127 | Releasing returns the run with one more attempt, delayed or at the back, or drops it if it was cancelled; without the lease it changes nothing |
| LeaseQueueModel.CancelRefines | matterloop-integration-redis/src/python/matterloop_integration_redis/queue.py:129-143 | Cancelling removes an idle run at once and marks a leased one |
| LeaseQueueRuns.StepRefines | matterloop-integration-redis/src/python/matterloop_integration_redis/queue.py:15-143 | Every script, on keys that encode a queue, is one step of that queue |
| LeaseQueueRuns.Reachable | matterloop-integration-redis/src/python/matterloop_integration_redis/queue.py:15-143 | After any sequence of commands with fresh lease identifiers the keys encode a queue |
| LeaseQueueRuns.KeysAgree | matterloop-integration-redis/src/python/matterloop_integration_redis/queue.py:15-143 | In every reachable state pending is free of repetitions; pending, delayed and leased runs are disjoint and together are the jobs and the attempts; leases, expiries and run leases are mutually inverse; cancelled runs are leased |
| LeaseQueueRuns.EndingCommands | matterloop-integration-redis/src/python/matterloop_integration_redis/queue.py:36-53 | A stored lease ends exactly by its own acknowledgement or release, or by a lease script after its expiry |
| LeaseQueueRuns.FencedForGood | matterloop-integration-redis/src/python/matterloop_integration_redis/queue.py:82-127 | Once a lease has ended, every later acknowledgement or release with it leaves all eight keys as they are, also when the run is leased again |
| LeaseQueueRuns.AttemptsCountReturns | matterloop-integration-redis/src/python/matterloop_integration_redis/queue.py:17-24 | In every reachable state a run's attempt is one more than its releases and expiries since it was enqueued |
| LeaseQueueRuns.DeliveredAttempt | matterloop-integration-redis/src/python/matterloop_integration_redis/queue.py:64-76 | A delivered attempt is one more than the earlier releases and expiries of its run, this script's included |
| LeaseQueueRuns.LeavesOnlyBy | matterloop-integration-redis/src/python/matterloop_integration_redis/queue.py:82-143 | A run leaves the jobs exactly by its holder's acknowledgement, by cancel while idle, or, once cancelled, by the end of its lease |
| LeaseQueueRuns.RefusedWhileLeased | matterloop-integration-redis/src/python/matterloop_integration_redis/queue.py:17-19 | While a run is on a lease it cannot be enqueued again |
| LeaseQueueRuns.CancelledIsNotDelivered | matterloop-integration-redis/src/python/matterloop_integration_redis/queue.py:131-142 | A cancelled run is not delivered again before a successful enqueue |
| LeaseQueueRuns.DeliversTheEligible | matterloop-integration-redis/src/python/matterloop_integration_redis/queue.py:28-79 | A lease script delivers exactly when some run is waiting, due, or expired and not cancelled, and delivers such a run |
| SortedSets.RangeIsAscending | matterloop-integration-redis/src/python/matterloop_integration_redis/queue.py:30-36 | ZRANGEBYSCORE lists ascending scores, equal ones in dictionary order of their members |
| LeaseQueueOrder.RefreshedPending | matterloop-integration-redis/src/python/matterloop_integration_redis/queue.py:30-53 | Before it pops, the script has put the runs whose leases expired in front of the pending ones, the last to expire foremost, and the due ones behind them, the first to fall due foremost |
| LeaseQueueOrder.DeliversNextInLine | matterloop-integration-redis/src/python/matterloop_integration_redis/queue.py:28-79 | The run delivered is, of those whose leases expired, the last to expire; else the first pending; else, of the due, the first to fall due |
| LeaseQueueOrder.EnqueuedIsEligible | matterloop-integration-redis/src/python/matterloop_integration_redis/queue.py:15-25 | A newly enqueued run goes behind all pending ones and may be delivered at once |
| LeaseQueueOrder.LeaseShields | matterloop-integration-redis/src/python/matterloop_integration_redis/queue.py:68-77 | A leased run may be delivered to nobody else before its lease expires, and from then on may; the lease is stored with its run and worker |
| LeaseQueueOrder.ReleaseDelays | matterloop-integration-redis/src/python/matterloop_integration_redis/queue.py:111-126 | A run released with a delay may be delivered from its due time on and not before; without one at once, behind the pending ones |
| LeaseQueueOrder.CancelTakesOut | matterloop-integration-redis/src/python/matterloop_integration_redis/queue.py:129-143 | Cancel takes exactly that run out of the pending list, and out of delivery; a leased run stays on its lease |
| LeaseQueueOrder.CarriesLastJob | matterloop-integration-redis/src/python/matterloop_integration_redis/queue.py:17-24 | A queued run carries the job it was last enqueued with |
| LeaseQueue.RedisQueueBackend.Enqueue | matterloop-integration-redis/src/python/matterloop_integration_redis/queue.py:164-177 | Enqueue on the stored keys: the script's effect, or a duplicate error and no change |
| LeaseQueue.RedisQueueBackend.Lease | matterloop-integration-redis/src/python/matterloop_integration_redis/queue.py:179-219 | The lease script with its three loops, after the argument checks; what they do to the keys and what is delivered |
| LeaseQueue.RedisQueueBackend.Promote | matterloop-integration-redis/src/python/matterloop_integration_redis/queue.py:30-34 | The loop over due runs has the stated effect on all keys |
| LeaseQueue.RedisQueueBackend.ReclaimExpired | matterloop-integration-redis/src/python/matterloop_integration_redis/queue.py:36-53 | The loop over expired leases has the stated effect on all keys |
| LeaseQueue.RedisQueueBackend.Pop | matterloop-integration-redis/src/python/matterloop_integration_redis/queue.py:55-79 | The pop loop has the stated effect on all keys |
| LeaseQueue.RedisQueueBackend.Acknowledge | matterloop-integration-redis/src/python/matterloop_integration_redis/queue.py:221-234 | Acknowledge on the stored keys |
| LeaseQueue.RedisQueueBackend.Release | matterloop-integration-redis/src/python/matterloop_integration_redis/queue.py:236-256 | Release on the stored keys, with its argument check |
| LeaseQueue.RedisQueueBackend.Cancel | matterloop-integration-redis/src/python/matterloop_integration_redis/queue.py:258-271 | Cancel on the stored keys; the reply says whether the run was known |
| Usage.Subtract | matterloop-policies/src/python/matterloop_policies/usage.py:449-465 | Subtraction succeeds exactly when no component would become negative, and is then componentwise |
| Usage.AddThenSubtract | matterloop-policies/src/python/matterloop_policies/usage.py:430-465 | Subtraction undoes addition, also where a cost drops out at zero |
| Usage.FirstExcessIsReal | matterloop-policies/src/python/matterloop_policies/usage.py:376-410 | A refusal names the first limit that would be exceeded, with the figures that exceed it; without a refusal no listed limit would be |
| Usage.ChecksAreComplete | matterloop-policies/src/python/matterloop_policies/usage.py:354-410 | The twelve checks cover every limit: they all pass exactly when the amount fits |
| UsageAnswers.FitsFieldByField | matterloop-policies/src/python/matterloop_policies/usage.py:354-410 | What the limits mean, field by field: committed, reserved and requested together, active calls, and costs in the one currency |
| UsageAnswers.RefusesWithoutRoom | matterloop-policies/src/python/matterloop_policies/usage.py:338-410 | The scope-by-scope check refuses exactly if some scope has no room, and names that scope, a quantity that is over, and the figures |
| UsageAnswers.NormalizedExactly | matterloop-policies/src/python/matterloop_policies/usage.py:413-428 | Scopes are stripped; none, blank or repeated ones are refused |
| UsageAnswers.ReserveAnswers | matterloop-policies/src/python/matterloop_policies/usage.py:174-206 | The exact condition for a reserve to succeed, and for each of its refusals |
| UsageAnswers.IdentifierAsGiven | matterloop-policies/src/python/matterloop_policies/usage.py:189-191 | A caller's identifier is used as given unless it is empty |
| UsageAnswers.ReserveHolds | matterloop-policies/src/python/matterloop_policies/usage.py:174-206 | What a successful reserve adds to each of its scopes, and that it leaves the others alone |
| UsageAnswers.ConsumeAnswers | matterloop-policies/src/python/matterloop_policies/usage.py:242-255 | The exact condition for a charge to be accepted |
| UsageAnswers.SettlingFields | matterloop-policies/src/python/matterloop_policies/usage.py:208-240 | What settling takes back from and charges to each scope of the reservation, and that it leaves the others alone |
| UsageAnswers.CommitAnswers | matterloop-policies/src/python/matterloop_policies/usage.py:208-230 | Commit complains if and only if some scope it settled is left over a limit, naming it |
| UsageAnswers.ConfigureAnswers | matterloop-policies/src/python/matterloop_policies/usage.py:145-151 | The exact condition for limits to be accepted, and which scope they then apply to |
| UsageAnswers.DefaultsUntilConfigured | matterloop-policies/src/python/matterloop_policies/usage.py:145-157 | A scope that was never configured has the default limits |
| UsageAnswers.ClearAnswers | matterloop-policies/src/python/matterloop_policies/usage.py:321-330 | The exact condition for a scope to be cleared, and that no other scope is |
| Usage.UsageLedger.ConfigureScope | matterloop-policies/src/python/matterloop_policies/usage.py:145-151 | Explicit limits are set only if the scope's present usage fits them |
| Usage.UsageLedger.Reserve | matterloop-policies/src/python/matterloop_policies/usage.py:174-206 | Reserve checks every scope before it holds anything on any of them; an absent or empty identifier is replaced by a generated one |
| Usage.UsageLedger.Consume | matterloop-policies/src/python/matterloop_policies/usage.py:242-255 | Consume checks every scope before it charges any of them |
| Usage.UsageLedger.Finalize | matterloop-policies/src/python/matterloop_policies/usage.py:208-240 | The settling loop, scope by scope, stopping where the original would raise |
| Usage.UsageLedger.Commit | matterloop-policies/src/python/matterloop_policies/usage.py:208-230 | Commit settles every scope and then reports a limit that is exceeded |
| Usage.UsageLedger.Rollback | matterloop-policies/src/python/matterloop_policies/usage.py:232-240 | Rollback gives back what was held |
| Usage.UsageLedger.Clear | matterloop-policies/src/python/matterloop_policies/usage.py:321-330 | A scope is cleared only if no call is active on it and no reservation names it |
| UsageRuns.AlwaysExact | matterloop-policies/src/python/matterloop_policies/usage.py:174-255 | In every reachable ledger each scope holds, in every resource, currency and active call, the sum of the outstanding reservations that name it |
| UsageRuns.FinalizeCompletes | matterloop-policies/src/python/matterloop_policies/usage.py:208-240 | Hence commit and rollback never stop halfway: no subtraction goes negative, no scope is missing, every scope is settled and the reservation is gone |
| UsageRuns.RollbackUndoesReserve | matterloop-policies/src/python/matterloop_policies/usage.py:174-240 | A rollback restores every scope and every other reservation to what it was before the reserve |
| UsageRuns.FailureChangesNothing | matterloop-policies/src/python/matterloop_policies/usage.py:174-255 | A failed operation changes nothing; only a commit over a limit fails after it has settled in full |
| UsageRuns.NeverOversold | matterloop-policies/src/python/matterloop_policies/usage.py:354-410 | If no commit exceeds its reservation, every reachable ledger keeps committed plus reserved and the active calls of every scope within its limits |
| UsageRuns.FinalizingSucceeds | matterloop-policies/src/python/matterloop_policies/usage.py:208-240 | Then commit and rollback fail exactly when the reservation is not outstanding |
| UsageRuns.CommittedIsCharged | matterloop-policies/src/python/matterloop_policies/usage.py:208-255 | Whatever the limits, a scope's committed amount is the sum of all that was committed or consumed on it since it was last cleared |
| UsageRuns.OverspentRefuses | matterloop-policies/src/python/matterloop_policies/usage.py:354-410 | A scope charged beyond a limit refuses every reserve and every charge that names it, and nothing changes |
| UsageRuns.OverspentUntil | matterloop-policies/src/python/matterloop_policies/usage.py:145-151 | It stays so until it is cleared or given limits that it fits |
| Metering.CeilDivIsLeast | matterloop-policies/src/python/matterloop_policies/metering.py:306-309 | The rounded quotient is the least number of whole units that covers the numerator |
| Metering.EachKindAtItsRate | matterloop-policies/src/python/matterloop_policies/metering.py:68-120 | Tokens of each kind alone cost the rate for that kind, and a rate not given is the one for ordinary tokens |
| Metering.ClampedCosts | matterloop-policies/src/python/matterloop_policies/metering.py:72-76 | Cached tokens beyond the input make the ordinary input zero; reasoning tokens beyond the output are not billed; the reported total does not matter |
| Metering.CostOfParts | matterloop-policies/src/python/matterloop_policies/metering.py:68-81 | The cost of every consistent usage is fixed by the five rates: numerators of its parts add up |
| Metering.EstimateIsReached | matterloop-policies/src/python/matterloop_policies/metering.py:83-94 | The estimate is reached by some usage within it, so it is the least upper bound |
| Metering.SettlesWhatIsReported | matterloop-policies/src/python/matterloop_policies/metering.py:280-303 | The amount settled is the reported usage field by field, with the cost in the card's currency |
| Metering.ReservesTheWorstCase | matterloop-policies/src/python/matterloop_policies/metering.py:232-261 | The amount reserved is one call with the worst case of every field |
| Metering.EstimateCoversCost | matterloop-policies/src/python/matterloop_policies/metering.py:68-94 | The estimated maximum cost covers the cost of any usage within the estimates |
| Metering.ReservationCoversCharge | matterloop-policies/src/python/matterloop_policies/metering.py:204-303 | For any usage within the estimates, cached input counted as input, what is settled is at most what was reserved, in every component and in cost |
| Metering.CoversExactlyTheEstimated | matterloop-policies/src/python/matterloop_policies/metering.py:204-303 | The reservation covers the charge under every rate card, and without one, if and only if the usage is within the estimates, cached input counted as input |
| Metering.CachedTokensCountTogether | matterloop-policies/src/python/matterloop_policies/metering.py:70-75 | A witness: cache hits and misses each within the estimate, every other component covered, and the cost not |
| Metering.RoundingBound | matterloop-policies/src/python/matterloop_policies/metering.py:68-81 | Billing n calls one by one exceeds one bill for their sum by between 0 and n - 1 micro-units |
| MeteredCalls.BudgetedModelClient.Begin | matterloop-policies/src/python/matterloop_policies/metering.py:204-261 | The decisions before the call and the one reservation it makes |
| MeteredCalls.BudgetedModelClient.Finish | matterloop-policies/src/python/matterloop_policies/metering.py:262-303 | Every way the provider call can end leads to exactly one commit or one rollback of the reservation |
| MeteredCalls.BudgetedModelClient.Remember | matterloop-policies/src/python/matterloop_policies/metering.py:277-292 | The table of continuations forgets the used one, keeps the newest last and drops the oldest beyond its cap |
| MeteredCalls.PlansExactly | matterloop-policies/src/python/matterloop_policies/metering.py:204-231 | The exact conditions for a call to go ahead, the input estimate with what a continuation carries, and the output estimate |
| MeteredCalls.StartHolds | matterloop-policies/src/python/matterloop_policies/metering.py:232-261 | A started call holds one active call and the worst case on each of its scopes and on no other |
| MeteredCalls.StopCharges | matterloop-policies/src/python/matterloop_policies/metering.py:262-303 | The end of a call takes back what it held and charges what was reported, also when the response could not be parsed, and nothing when there is no usage |
| MeteredCalls.OthersStayRemembered | matterloop-policies/src/python/matterloop_policies/metering.py:277-292 | Remembering a continuation keeps all others but the oldest of a full table, and forgets the one it was made from |
| MeteredCalls.NewestIsRemembered | matterloop-policies/src/python/matterloop_policies/metering.py:277-292 | A returned continuation is found by the next call and the table never outgrows its cap |
| MeteredCalls.StopSucceeds | matterloop-policies/src/python/matterloop_policies/metering.py:262-303 | The end of a call settles without an error, and its reservation cannot be settled a second time |
| MeteredCalls.CallsStaySound | matterloop-policies/src/python/matterloop_policies/metering.py:204-303 | However calls and other users of the ledger interleave, the ledger stays exact, no scope is oversold and every open call's reservation is outstanding |
| RunRepository.RedisRunRepository.Create | matterloop-integration-redis/src/python/matterloop_integration_redis/repository.py:13-21 | Create on the Redis keys, with the failure of ZADD on a string after SET has taken effect |
| RunRepository.RedisRunRepository.CompareAndSet | matterloop-integration-redis/src/python/matterloop_integration_redis/repository.py:118-146 | The caller's checks, then the compare-and-set script on the Redis keys, with all its replies |
| RunRepository.RecordKeysApart | matterloop-integration-redis/src/python/matterloop_integration_redis/repository.py:148-153 | Record keys are injective, and a record key is the index key exactly for the run called "index" |
| RunRepository.CreatesExactlyUnlessIndex | matterloop-integration-redis/src/python/matterloop_integration_redis/repository.py:13-21 | On keys that hold some records, create stores an unused run, or reports a duplicate, as it is meant to exactly if the run is not called "index"; that one is a false duplicate, or on an empty repository spoils the index |
| RunRepository.SwapsExactlyUnlessIndex | matterloop-integration-redis/src/python/matterloop_integration_redis/repository.py:23-52 | Compare-and-set replaces the current record by its next version and nothing else, and answers as it is meant to exactly if the run is not called "index" or nothing is stored |
| RepositoryRuns.HoldsUnlessStartedWithIndex | matterloop-integration-redis/src/python/matterloop_integration_redis/repository.py:13-52 | After any commands the keys hold the records that are meant, indexed by creation time, unless the first create was of run "index" |
| RepositoryRuns.InOrderExactlyUnlessIndexFirst | matterloop-integration-redis/src/python/matterloop_integration_redis/repository.py:13-52 | After any commands the repository is in order if and only if the first create was not of run "index" |
| RepositoryRuns.StaysSpoiled | matterloop-integration-redis/src/python/matterloop_integration_redis/repository.py:13-52 | A spoiled repository never again creates or replaces without an error |
| ClaimProtocol.AlwaysSound | matterloop-integration-celery/src/python/matterloop_integration_celery/tasks.py:136-210 | Under any interleaving of workers, redeliveries, crashes and other writers, stored versions are consecutive, and what a worker holds is what it stored or read |
| ClaimProtocol.OneOwnerPerClaim | matterloop-integration-celery/src/python/matterloop_integration_celery/tasks.py:151-169 | Two workers never hold the same claimed version |
| ClaimProtocol.AlwaysLawful | matterloop-integration-celery/src/python/matterloop_integration_celery/tasks.py:136-210 | Every stored record that a worker wrote claims a queued record or a stale claim, or concludes that same worker's claim just before it |
| ClaimProtocol.SettledForGood | matterloop-integration-celery/src/python/matterloop_integration_celery/tasks.py:136-210 | Once a run is settled, no worker step, redelivery or crash ever replaces its record |
| ClaimProtocol.HistoryGrows | matterloop-integration-redis/src/python/matterloop_integration_redis/repository.py:23-52 | What has been stored is never rewritten: the history only grows |
| ClaimProtocol.OvertakenForGood | matterloop-integration-celery/src/python/matterloop_integration_celery/tasks.py:171-210 | Once a later version is stored, a worker's result or failure is never stored, however long it waits |
| ClaimProtocol.UndisturbedClaim | matterloop-integration-celery/src/python/matterloop_integration_celery/tasks.py:136-169 | Undisturbed, a task claims the current record exactly when it is queued or its claim lease has run out |
| ClaimConclusions.AlwaysExplained | matterloop-integration-celery/src/python/matterloop_integration_celery/tasks.py:136-210 | Under any interleaving, every record a worker stored is a claim of the record before it, or what the end of an execution of that worker left of its own claim |
| ClaimConclusions.StatusWasReported | matterloop-integration-celery/src/python/matterloop_integration_celery/tasks.py:171-210 | A stored success, pause, block, cancel or timeout was reported as just that by that worker, with that result and error; a failure was reported, or raised, or came from a result of another run |
| ClaimConclusions.UndisturbedConclusion | matterloop-integration-celery/src/python/matterloop_integration_celery/tasks.py:171-210 | Undisturbed, an execution that ends appends exactly what its ending says, or nothing if its status is none a run can end in |
| ClaimConclusions.UndisturbedTask | matterloop-integration-celery/src/python/matterloop_integration_celery/tasks.py:136-169 | Undisturbed, a task with the stored request claims exactly a queued record or a stale claim, as a new running version of now |
| ClaimConclusions.OthersWriteExactly | matterloop-integration-redis/src/python/matterloop_integration_redis/repository.py:23-52 | Another writer's record is stored exactly if it is the next version, with the same creation time |
| ClaimProtocol.TimedExclusion | matterloop-integration-celery/src/python/matterloop_integration_celery/tasks.py:80-124 | If every execution ends within the claim lease and others leave a running record alone, no two workers ever execute the run at the same time |
| ClaimProtocol.LateExecutionOverlaps | matterloop-integration-celery/src/python/matterloop_integration_celery/tasks.py:151-161 | The bound is tight: an execution that lasts exactly the claim lease can be overlapped |
| ContextStore.RedisContextStore.Save | matterloop-integration-redis/src/python/matterloop_integration_redis/context.py:18-43 | The save: the caller's check, then the script on the head and the version of the snapshot's own context, and no other |
| ContextStore.RedisContextStore.Load | matterloop-integration-redis/src/python/matterloop_integration_redis/context.py:62-88 | The load of a given revision or of the latest: blank key, revision out of range, missing, expired, mismatched key or revision |
| ContextStore.SavesExactly | matterloop-integration-redis/src/python/matterloop_integration_redis/context.py:18-43 | A save succeeds exactly with the next revision after the live head, or revision 1 where none is live |
| ContextStore.SavedUntilItExpires | matterloop-integration-redis/src/python/matterloop_integration_redis/context.py:37-40 | What was saved is found, as latest and by revision, until its time to live is over and not after |
| ContextStore.FindsExactly | matterloop-integration-redis/src/python/matterloop_integration_redis/context.py:62-88 | A load finds exactly an unexpired version stored under its own key and revision |
| ContextStore.StoreIsConsistent | matterloop-integration-redis/src/python/matterloop_integration_redis/context.py:90-129 | With one time to live, in every reachable state the live versions are an interval ending at the latest, expiring in order; with no live head no version is live |
| ContextStore.NoSaveOverwrites | matterloop-integration-redis/src/python/matterloop_integration_redis/context.py:18-43 | With one time to live, no successful save after any run overwrites a live version |
| ContextStore.LiveVersionsAreImmutable | matterloop-integration-redis/src/python/matterloop_integration_redis/context.py:18-43 | A version stays as it is for as long as it lives, also across a history that starts again at revision 1 |
| ContextStore.LoadFindsTheLatest | matterloop-integration-redis/src/python/matterloop_integration_redis/context.py:62-88 | Loading the latest finds the very snapshot the head named, whatever happens between its two reads, while that version lives |
| ContextStore.ShorteningOverwrites | matterloop-integration-redis/src/python/matterloop_integration_redis/context.py:37-40 | A save that shortens the head's life always allows a live version to be overwritten later: never shortening it is exactly what immutability needs |
| SpanExport.ExportIsExact | matterloop-observability/src/python/matterloop_observability/exporter.py:295-330 | The loop writes exactly the first root, what is reachable from it by parent links and all scores, each as often as it waited and after its parent; the rest stays waiting in order; without a root it does nothing |
| SpanExport.OtelExporter.Export | matterloop-observability/src/python/matterloop_observability/exporter.py:264-293 | A batch affects each trace by itself: its items are let in up to the cap, and the loop runs if any was |
| SpanExport.OtelExporter.DrainLoop | matterloop-observability/src/python/matterloop_observability/exporter.py:295-330 | The fixpoint loop terminates and computes those passes |
| SpanExport.OtelExporter.PassLoop | matterloop-observability/src/python/matterloop_observability/exporter.py:303-325 | One pass over the waiting list |
| TraceBuilder.Builder.Handle | matterloop-observability/src/python/matterloop_observability/trace_builder.py:123-154 | One event: what is emitted and which spans stay open, for this run only; a finished run is forgotten |
| TraceBuilder.Builder.CloseRun | matterloop-observability/src/python/matterloop_observability/trace_builder.py:330-356 | A terminal event closes the open roles and then the root |
| TraceBuilder.Builder.MoveExecutor | matterloop-observability/src/python/matterloop_observability/trace_builder.py:187-242 | Opening an executor closes the one still open as an error |
| TraceBuilder.Builder.CompleteIteration | matterloop-observability/src/python/matterloop_observability/trace_builder.py:262-278 | Verifier span, iteration span and score of an iteration |
| TraceBuilder.RootComesLast | matterloop-observability/src/python/matterloop_observability/trace_builder.py:330-356 | A run's emissions up to its first terminal event end in the root, marked as an error exactly if the run failed; every other span is a child of it |
| TraceBuilder.EmitsSurviving | matterloop-observability/src/python/matterloop_observability/trace_builder.py:244-328 | Every opened role span is emitted once, in order and marked as the event that closed it says, except exactly the verifier and reviewer spans whose role opens again before it closes |
| TraceBuilder.OpenedTwiceIsLost | matterloop-observability/src/python/matterloop_observability/trace_builder.py:244-328 | A run that loses one, for either role: of two spans opened in a row only the second is emitted |
| TraceBuilder.RunsApart | matterloop-observability/src/python/matterloop_observability/trace_builder.py:123-154 | Of everything emitted for any interleaving of runs, a run's share is what its own events emit |
| TraceBuilder.ExecutorsComeOut | matterloop-observability/src/python/matterloop_observability/trace_builder.py:187-242 | Executor spans come out one for one, in the order they were opened, an error exactly if retried, replaced or open when the run failed |
| TraceBuilder.IterationsComeOut | matterloop-observability/src/python/matterloop_observability/trace_builder.py:262-278 | Every recorded iteration is emitted as one span, in order |
| TraceBuilder.ScoresComeOut | matterloop-observability/src/python/matterloop_observability/trace_builder.py:262-278 | Every recorded and scored iteration is emitted as one score |
| TraceDelivery.WaitsWithinCap | matterloop-observability/src/python/matterloop_observability/exporter.py:264-293 | No trace ever keeps more items waiting than the cap, besides roots |
| TraceDelivery.FeedsThrough | matterloop-observability/src/python/matterloop_observability/exporter.py:264-330 | Items that end in their root, in any in-order batches below the cap, are exported in one go and leave nothing waiting |
| TraceDelivery.HandOver | matterloop-observability/src/python/matterloop_observability/exporter.py:264-293 | Batches exported one after the other do to every trace what its share of them does |
| TraceDelivery.RunIsDelivered | matterloop-observability/src/python/matterloop_observability/exporter.py:264-330 | Whatever batches a run's emissions are cut into, and whatever other traces share them, the whole trace is written once, parents first, and nothing of it stays waiting |
| TraceDelivery.EventsBecomeTraces | matterloop-observability/src/python/matterloop_observability/pipeline.py:66-148 | End to end: events of any runs, built into spans, accepted by the pipeline, batched in any interleaving and shut down; every finished run is exported whole |
| Pipeline.AlwaysSound | matterloop-observability/src/python/matterloop_observability/pipeline.py:66-148 | Under any interleaving the accepted items, in order, are those handed over, then the current batch, then the queue; offered items are accepted or counted as dropped; no batch exceeds the threshold; none is given up before two attempts |
| PipelineProgress.EnqueueExactly | matterloop-observability/src/python/matterloop_observability/pipeline.py:66-79 | An item is put behind all others exactly while the pipeline is open and has room; else it is counted as dropped |
| PipelineProgress.ShutdownExactly | matterloop-observability/src/python/matterloop_observability/pipeline.py:85-95 | The steps of a shutdown, and that they are taken once |
| PipelineProgress.AllAreAccepted | matterloop-observability/src/python/matterloop_observability/pipeline.py:66-79 | If every item comes before the shutdown and finds room, all are accepted in order and none is dropped |
| PipelineProgress.HandsOverWhenDue | matterloop-observability/src/python/matterloop_observability/pipeline.py:97-136 | The exact conditions under which the worker turns to handing over its batch |
| PipelineProgress.HandsOverTheBatch | matterloop-observability/src/python/matterloop_observability/pipeline.py:138-148 | It then hands over the whole batch and counts its items as done |
| PipelineProgress.LeftAloneItDrains | matterloop-observability/src/python/matterloop_observability/pipeline.py:97-136 | Left to the worker, everything let in is handed over after finitely many of its steps, without any shutdown |
| Pipeline.Retry | matterloop-observability/src/python/matterloop_observability/pipeline.py:138-148 | The retry loop: one attempt if the first succeeds, else two; given up only if both fail |
| Pipeline.WorkerExits | matterloop-observability/src/python/matterloop_observability/pipeline.py:97-136 | Once shutdown is done the worker exits after finitely many of its own steps, whatever is interleaved |
| Pipeline.ShutdownHandsOver | matterloop-observability/src/python/matterloop_observability/pipeline.py:85-136 | So everything accepted is then handed over, in order, and everything offered is handed over or counted as dropped |
| Pipeline.FlushReturnsUnlessLate | matterloop-observability/src/python/matterloop_observability/pipeline.py:81-95 | And waiting for unfinished items then ends if and only if the sentinel was not put after the worker had found the queue empty |
| Pipeline.StrandedForGood | matterloop-observability/src/python/matterloop_observability/pipeline.py:81-95 | A sentinel put too late is never finished, whatever happens afterwards |
| Pipeline.ShutdownCanStrand | matterloop-observability/src/python/matterloop_observability/pipeline.py:85-95 | It can happen, for every threshold and capacity: shutdown then never returns from its flush |
| ComponentContainer.NextSane | matterloop-runtime/src/python/matterloop_runtime/container.py:59-187 | Every event keeps the table, the borrow counts and the close counts right |
| ComponentContainer.NeverClosedWhileBorrowed | matterloop-runtime/src/python/matterloop_runtime/container.py:145-170 | A slot that has been closed is retired and borrowed by nobody |
| ComponentContainer.ClosedOnceUnlessDrainedInLine | matterloop-runtime/src/python/matterloop_runtime/container.py:59-119 | A retired slot without borrowers that the closing loop need not visit any more has been closed exactly once, or exactly twice if its last borrower left while that loop was waiting with it still ahead |
| ComponentContainer.ClosedForGood | matterloop-runtime/src/python/matterloop_runtime/container.py:172-187 | After the container is closed no slot is installed and nothing is borrowed anew |
| ComponentContainer.DrainedInLineClosesTwice | matterloop-runtime/src/python/matterloop_runtime/container.py:163-187 | Whenever a slot's last borrower leaves while the closing loop has it next in line, it is closed twice |
| ComponentContainer.SweepCanCloseTwice | matterloop-runtime/src/python/matterloop_runtime/container.py:172-187 | Such a run exists from the empty container |
| ContainerOperations.RegistersExactly | matterloop-runtime/src/python/matterloop_runtime/container.py:59-106 | When a registration or replacement is taken up |
| ContainerOperations.StartedTakesOver | matterloop-runtime/src/python/matterloop_runtime/container.py:71-89 | Once started, the new component is what is borrowed; the one it replaces is retired, closed at once if idle, and kept by its borrowers; a failed start changes nothing |
| ContainerOperations.UnregistersExactly | matterloop-runtime/src/python/matterloop_runtime/container.py:107-119 | An unregistered component is borrowed by nobody anew and kept by its borrowers |
| ContainerOperations.AcquiresExactly | matterloop-runtime/src/python/matterloop_runtime/container.py:145-161 | A borrower gets the current slot exactly if there is one and the container is open |
| ContainerOperations.ReleasesExactly | matterloop-runtime/src/python/matterloop_runtime/container.py:162-170 | A return closes the slot exactly if it is retired and nobody else borrows it |
| ContainerOperations.ResumesFurther | matterloop-runtime/src/python/matterloop_runtime/container.py:184-187 | The closing loop gets further at every resumption |
| RegistryOperations.RefusesExactly | matterloop-models/src/python/matterloop_models/registry.py:138-297 | What is refused and why |
| RegistryOperations.ClientAfter | matterloop-models/src/python/matterloop_models/registry.py:138-297 | Which client a name stands for after each operation |
| RegistryOperations.HandsBackTheOld | matterloop-models/src/python/matterloop_models/registry.py:229-279 | The slot handed back is the former one, retired, and drained exactly if no lease on it is unreleased |
| RegistryOperations.LeasesTheCurrent | matterloop-models/src/python/matterloop_models/registry.py:204-227 | Entering a lease gives the client that was current when it was taken |
| RegistryOperations.ReleasesExactly | matterloop-models/src/python/matterloop_models/registry.py:321-333 | A release drains its slot exactly if that is retired and this was its last lease |
| ModelRegistry.Registry.Register | matterloop-models/src/python/matterloop_models/registry.py:138-170 | Register or replace under the stripped name, or one of two errors and no change |
| ModelRegistry.Registry.Swap | matterloop-models/src/python/matterloop_models/registry.py:229-258 | Swap in a client; the old slot is handed back retired |
| ModelRegistry.Registry.Retire | matterloop-models/src/python/matterloop_models/registry.py:260-297 | Remove a client; its slot is handed back retired |
| ModelRegistry.Registry.Acquire | matterloop-models/src/python/matterloop_models/registry.py:204-227 | A lease on the client that is current now |
| ModelRegistry.Registry.Enter | matterloop-models/src/python/matterloop_models/registry.py:84-92 | A lease is entered at most once and never after its release |
| ModelRegistry.Registry.Release | matterloop-models/src/python/matterloop_models/registry.py:70-78 | Releasing twice is releasing once |
| ModelRegistry.StepSound | matterloop-models/src/python/matterloop_models/registry.py:204-333 | Every operation keeps each slot's count equal to its unreleased leases, and a slot drained exactly when it is retired with none left |
| ModelRegistry.DrainedForGood | matterloop-models/src/python/matterloop_models/registry.py:322-333 | Once drained, a slot stays as it is, unleased and unnamed, and no lease on it can be entered |
| ModelRegistry.LeasePinsClient | matterloop-models/src/python/matterloop_models/registry.py:204-227 | Through any later swaps a lease stays on the client that was current when it was taken, whose slot is not drained before the release |
| Utf8.DecodesExactlyEncodings | matterloop-observability/src/python/matterloop_observability/tool_tracing.py:318-321 | Strict decoding succeeds exactly on encodings and undoes encoding, as section 3 of RFC 3629 defines it |
| Utf8.EncodesAsTabulated | matterloop-observability/src/python/matterloop_observability/tool_tracing.py:318-321 | The encoding is the table of section 3 of RFC 3629 |
| PayloadPreview.PreviewIsLongestPrefix | matterloop-observability/src/python/matterloop_observability/tool_tracing.py:318-321 | The preview is the longest prefix of the payload whose encoding fits, and the flag says whether it is proper |
| ContextKeys.QuoteInjective | matterloop-models/src/python/matterloop_models/base.py:92-100 | Percent-encoding loses nothing |
| ContextKeys.KeysEqualIff | matterloop-models/src/python/matterloop_models/base.py:92-100 | Two scopes share a key exactly when tenant, run and participant are equal and the tasks are, an absent one read as "-" |
| ContextKeys.KeyReadsBack | matterloop-models/src/python/matterloop_models/base.py:92-100 | Split at colons and percent-decoded, a key is tenant, run, participant and task in this order |
| ContextKeys.KeepsUnreserved | matterloop-models/src/python/matterloop_models/base.py:96-99 | Exactly the unreserved characters are kept as they are |
| ContextKeys.MakesExactly | matterloop-models/src/python/matterloop_models/base.py:77-90 | What construction accepts, and that it strips |
| ContextKeys.OnlyDashIsNoTask | matterloop-models/src/python/matterloop_models/base.py:77-100 | Among accepted scopes only a task named "-" shares the key of no task |
| ContextKeys.RedisKeysAreApart | matterloop-integration-redis/src/python/matterloop_integration_redis/context.py:131-135 | No two contexts, no two revisions and no head and version share a Redis key |
| IntentResolution.Deduplicate | matterloop-agents/src/python/matterloop_agents/intent.py:272-285 | The pass that keeps the best candidate of each name |
| IntentResolution.KeptAreBest | matterloop-agents/src/python/matterloop_agents/intent.py:272-295 | Exactly one candidate of every name is kept, and none of its name outranks it |
| IntentResolution.AdoptedIsAhead | matterloop-agents/src/python/matterloop_agents/intent.py:218-269 | What is adopted is confident enough and clearly ahead of every candidate of another name, also of those never compared with it |
| IntentResolution.AdoptsExactlyWhenAhead | matterloop-agents/src/python/matterloop_agents/intent.py:218-269 | A candidate is adopted if and only if one is clearly ahead of all others |
| IntentResolution.ReportsInOrder | matterloop-agents/src/python/matterloop_agents/intent.py:218-231 | The candidates reported are the best of each name, by priority, confidence, gravity of effect and name |
| IntentResolution.SaysWhy | matterloop-agents/src/python/matterloop_agents/intent.py:232-269 | Why nothing is adopted, and how confident the question is |
| IntentResolution.AsksWith | matterloop-agents/src/python/matterloop_agents/intent.py:297-320 | A question carries the configured name, the names of all candidates and two signals each of the first three |
| IntentResolution.TieShows | matterloop-agents/src/python/matterloop_agents/intent.py:272-295 | A witness for any tie: two orders of the candidates with different resolutions |
| IntentResolution.OrderMattersExactlyForTies | matterloop-agents/src/python/matterloop_agents/intent.py:218-295 | The resolution is the same for every order of the candidates if and only if no name has two different best candidates |

## Left out

- Redis, Celery, asyncio, OpenTelemetry and JSON themselves; payload codecs, replies of the wrong type, and the branches for corrupted stored payloads (-2 replies, bad UTF-8).
- The stored lease's own copy of its expiry time, which nothing reads, and non-finite durations.
- `RunRepository.list` and its paging; `RunNotFoundError` does not arise in the claim protocol.
- Runtime factories, closers, producers and the results returned to Celery.
- Currency codes are taken as already stripped and upper-cased, and limits and rates as already checked by their constructors; `UsageSnapshot` and the `record_*` wrappers add nothing to the ledger.
- The input token estimator: its estimate is a parameter.
- MeteredCalls.CallsStaySound: assumes that usage stays within the estimates and that other users leave the calls' reservations alone, because beyond the estimates a commit may exceed its limit; `UsageRuns.CommittedIsCharged` and `UsageRuns.OverspentUntil` hold without it.
- Worker steps and container operations are events of a state machine, not methods, because a Dafny method cannot be suspended halfway; the same holds for the pipeline's worker loop. In-place update and aliasing are not captured there.
- Exceptions from component start and close, and one component instance under two names: statements are about slots.
- Release of a model lease and its effect on the slot are one step; finalizers count as a release. Descriptors, `get`, `describe` and `names`.
- Exporter attributes, timestamps, the lifecycle of the tracer provider, retries after a partial failure, the JSONL exporter.
- Span attributes, timing and redaction, exceptions that `TraceBuilder.handle` swallows, and the spans of `TracedModelClient`.
- The interval in which the pipeline's worker waits for an item, and producers that see errors other than a full queue. That the worker keeps taking steps is up to the scheduler: `Pipeline.WorkerExits` counts them.
- IntentResolution.AdoptsExactlyWhenAhead: confidences are real numbers, so float rounding at the edge of the margin is not captured.
- Other stores (`checkpoint.py`, `in_memory.py`), scoring, retry and semantic policies, presets and the FastAPI layer: easier or outside the protocols modelled here.
