# Weather-alert pipeline: a verified model

The system watches the weather for user-defined triggers and delivers alerts over Telegram, e-mail
and web push. A watcher polls locations, decides which triggers fire and stages deliveries in an
outbox; a relay hands them to RabbitMQ; a notifier consumes them, takes a lease on each
(event, channel), sends, and either settles, retries along a ladder of delay queues, or parks the
message. Redis holds the locks and the rate limiter, Postgres everything else.

The safety argument of that pipeline spans several services and no single function. This project
states it: the shared state (rows, queues, keys, a clock) is a Dafny value, each database statement or
broker operation is a step, any number of processes interleave, any of them may die between two steps,
and a statement or publish may fail with or without having taken effect. The main results are about
every run of those machines. Code that the repository writes as loops over mutable state is written
here as methods on classes, proved against functions of the old state, and the theorems are about those
functions. `dafny verify dfyconfig.toml` checks everything.

## The files

| file | subject |
|---|---|
| `Domain`, `Arithmetic`, `Decimal` | shared vocabulary, division facts, decimal text |
| `DeliveryLog`, `Delivery` | the notification table's statements; the notifier as a state machine |
| `Lease`, `LeaseRuns`, `Settlement` | mutual exclusion and send accounting; runs showing each hypothesis is needed; when SENT is for good |
| `Coverage`, `Ladder`, `Failures`, `Routing` | nothing leaves the broker unsent; the retry ladder; what is retried and what is not; keys and queues |
| `Notifier` | `dispatch`, `process`, `handleFailure` as code, refining to runs of `Delivery` |
| `WebPush` | the fan-out to several browsers under one claim |
| `Outbox`, `OutboxRuns`, `Relay`, `Pipeline` | staging and relaying; a run that stages twice; order and drain; no alert lost end to end |
| `RedisLock`, `PollCycle`, `PollCycleRuns`, `Grouping` | the fenced lock, the renewed poll cycle with its worker pool, runs that get past it, grouping |
| `QuietHours`, `TriggerStateMachine`, `Deployment` | the anti-spam decision alone, over runs, and over a deployment |
| `Watcher` | poll cycles and deployment joined: the cooldown from the lock's own conditions |
| `Fnv`, `FnvBits`, `Location`, `Sharding`, `TriggerRows` | the hash in two languages and bit by bit, buckets, shards, rows kept in step |
| `TokenStore`, `RefreshRotation` | the refresh-token table, call by call and statement by statement |
| `Throttle` | the rate limiter |

## Where the code falls short of what it says

Each of these is a pair of theorems: a run or an input that shows it, and the exact condition under
which the code keeps the promise.

- The lease is a promise about time only. A run with two sends
  (`LeaseRuns.OutlivingTheLeaseSendsTwice`), a run in which a deleted history row takes the claim with
  it (`LeaseRuns.DeletedRowLosesTheClaim`); exactly when a step keeps the lease: `Lease.LeaseKeptIff`.
- `settle` is unconditional, so a late FAILED can overwrite SENT on every ladder, well inside every
  lease (`LeaseRuns.LateFailureOverwritesSent`); exactly when SENT is for good, over all
  continuations: `Settlement.SentForGoodIff`; what it costs in sends: `Lease.SendAccounting`.
- A publish to a queue nobody declared is accepted and discarded
  (`Pipeline.UndeclaredQueueLosesTheAlert`); exactly which alerts cannot be lost: `Pipeline.NeverLostIff`.
- The outbox's unique index forgets what the prune removed, so the same commit repeated afterwards
  stages a second row (`OutboxRuns.RepeatedCommitStagesTwice`); exact condition:
  `Outbox.StagedOnceIffNotForgotten`. The watcher draws a fresh event id for every firing, so only a
  retry of the transaction from outside it reaches this.
- The documentation of `bucketPatch` says both coordinates are read from the patch when either is
  present; the code derives a bucket only when both are, so a patch with one coordinate leaves the
  bucket stale (`TriggerRows.OneCoordinateLeavesBucketStale`); exactly when a row is in step after any
  history, and when two rows are polled together: `TriggerRows.InStepIffStampAgrees`,
  `TriggerRows.PolledTogetherIff`. The model follows the code.
- A worker rejecting beside a running one releases the cycle lock under a raised flag
  (`PollCycleRuns.RejectionLetsTwoCyclesStart`); exactly when raised flags stay truthful in every
  continuation: `PollCycle.TruthfulFromIff`.
- Even with prompt renewals and no rejection a location in flight may outlive the lock, so two cycles
  of a shard may both be writing (`PollCycleRuns.InFlightOutlivesTheLock`); exactly when cycles come to
  overlap: `PollCycle.SoloKeptIff`; that it is always from behind a dropped flag:
  `PollCycle.OverlapHasFlagDown`.
- Two overlapping cycles of a shard can break the cooldown (`Deployment.OverlapBreaksCooldown`);
  exactly when it is kept, over every run: `Deployment.CooldownKeptIff`, and step by step:
  `Deployment.CurrentKeptIff`.
- The winner of a refresh compare-and-set may insert its row after the loser revoked the family
  (`RefreshRotation.WinnerInsertsAfterTheRevoke`); exactly when a revoked family stays signed out:
  `RefreshRotation.SignedOutForGoodIff`.
- A web-push retry can fail permanently although an earlier attempt reached a browser: when the other
  subscription has expired (`WebPush.RetryFailsThoughDelivered`), also with the reached browser
  unsubscribed (`WebPush.UnsubscribedRetryFails`), and when nobody is subscribed any more
  (`WebPush.NobodyLeftRetryFails`); exactly when: `WebPush.FailsThoughDeliveredIff`.

## What the theorems assume

- Lease theorems: every attempt is released or settled within the lease it took, all handlers read one
  clock, and no history row is deleted (for mutual exclusion: none that a running handler counts on).
- Web-push fan-out: attempts of one pair do not overlap, which is what `Lease.MutualExclusion` provides.
- Relay order: passes are serialised and rows become visible in `createdAt` order; overlapping relays
  are the subject of `Outbox`, which needs no such assumption.
- Cooldown over a deployment: shard count and coordinates are fixed. `Deployment.CooldownHolds` further
  assumes that no cycle commits a firing of a row another cycle of the shard still has before it;
  `Watcher.CooldownFromTheLock` puts conditions on the lock in its place (prompt renewals, no
  orphaning rejection, a cycle that lost its flag drained before the next acquire);
  `Deployment.CooldownKeptIff` assumes nothing of the kind.
- Maximal firings: the cooldown is constant and a firing is stored at the instant of its decision.
- Held flag: tokens are fresh, every renewal reply arrives before the TTL of the last confirmed renewal
  lapses, and no worker rejects under a raised flag beside a running one.
- Refresh rotation: tokens are opaque, their fingerprint is collision-free and ids are fresh.
- Rate limiter, bounds over request sequences: fixed limits with a positive ttl and a block duration
  that is not negative, Redis reachable throughout.

## Model

| member | source | states |
|---|---|---|
| `Lease.MutualExclusion` | apps/notifier/src/persistence/prisma-delivery-log.repository.ts:21-68 | In every run with any number of handlers, each attempt over within its lease and no row deleted under a running claim: at most one handler per (event, channel) is between "claimed" and its release or settle, the row carries that handler's claim, and the "row vanished" branch is never reached |
| `Lease.LeaseKeptIff` | apps/notifier/src/persistence/prisma-delivery-log.repository.ts:36-61 | A step keeps the lease if and only if it is neither a take-over landing on a lapsed claim whose holder still runs (which, answered, leaves two holders) nor the deletion of a row a running handler holds or still counts on |
| `Lease.SentKeptIff` | apps/notifier/src/persistence/prisma-delivery-log.repository.ts:63-81 | A SENT row stays SENT under a step if and only if the step is neither a landing FAILED settle of the pair nor a deletion of its row |
| `Settlement.SentForGoodIff` | apps/notifier/src/messaging/rabbit-consumer.service.ts:209-276 | At any point of any run a SENT row stays SENT in every continuation without a deletion or a new publication if and only if no copy of the alert is outside the dead queue and every handler of it is parking or acknowledging; otherwise a continuation that waits out every delay loses it |
| `Lease.SendAccounting` | apps/notifier/src/notifier.service.ts:85-115 | At every point the accepted sends of a pair equal the FAILED settles that overwrote SENT, plus the sends whose SENT settle was lost, plus one if the row reads SENT or is about to; with neither accident at most one send |
| `LeaseRuns.OutlivingTheLeaseSendsTwice` | apps/notifier/src/notifier.service.ts:31-36 | For every ladder, a run without deletions in which an attempt outlives its lease and both handlers send |
| `LeaseRuns.DeletedRowLosesTheClaim` | apps/notifier/src/persistence/prisma-delivery-log.repository.ts:51-59 | For every ladder, a run with one deleted row in which two handlers hold the pair at the same instant |
| `LeaseRuns.LateFailureOverwritesSent` | apps/notifier/src/messaging/rabbit-consumer.service.ts:227-258 | For every ladder with at least one stage and all delays, a run that waits each delay out: an alert relayed twice climbs all its stages, finds its last attempt in flight, and writes FAILED over the SENT of the other message |
| `DeliveryLog.DeliveryTable.Claim` | apps/notifier/src/persistence/prisma-delivery-log.repository.ts:16-61 | For every answer of the three statements: nothing is written but a fresh claim of the pair, keeping its delivered destinations; when all answer, claimed exactly when the row is absent, or not SENT and unclaimed or lapsed, and duplicate exactly when SENT |
| `DeliveryLog.DeliveryTable.ReleaseClaim` | apps/notifier/src/persistence/prisma-delivery-log.repository.ts:63-68 | Afterwards the row is unclaimed if and only if it was PENDING, whoever held it, or unclaimed before; nothing else about it and no other row changes |
| `DeliveryLog.DeliveryTable.Settle` | apps/notifier/src/persistence/prisma-delivery-log.repository.ts:70-81 | Unconditional upsert: any status is overwritten, claim and delivered destinations survive |
| `DeliveryLog.DeliveryTable.MarkDelivered` | apps/notifier/src/persistence/prisma-delivery-log.repository.ts:94-103 | The destinations of an existing row grow by exactly this one, status and claim stay, a missing row is not made |
| `Coverage.CoverStep` | apps/notifier/src/messaging/rabbit-consumer.service.ts:209-276 | Every step of the protocol, crashes, requeues, ambiguous publishes and row deletions included, keeps each covered alert covered: a copy in the broker, an accepted send, or a drop from a full dead queue |
| `Coverage.AckStep` | apps/notifier/src/messaging/rabbit-consumer.service.ts:219-225 | An acknowledgement never removes the last trace of an alert: whoever acks has a send or a younger copy behind it |
| `Coverage.InjectCovers` | apps/notifier/src/messaging/rabbit-consumer.service.ts:128-133 | An alert accepted by the exchange of a declared queue is covered |
| `Coverage.CopyLife` | apps/notifier/src/messaging/rabbit-consumer.service.ts:278-297 | A copy's message, attempt header and origin never change, and it leaves the broker only acknowledged by the handler it is delivered to or shed by a full dead queue |
| `Coverage.OverflowShedsTheOldest` | apps/notifier/src/messaging/rabbit-consumer.service.ts:154-166 | A full dead queue sheds the oldest of what it holds and never goes below its ceiling |
| `Ladder.HeadersStayOnLadder` | apps/notifier/src/messaging/rabbit-consumer.service.ts:227-258 | In every run, for every ladder length n: attempt headers stay in 0..n, a waiting copy sits on the stage its header names, and each republish, heard of or not, goes one declared stage up with strictly fewer attempts left |
| `Ladder.MessagesAreConserved` | apps/notifier/src/messaging/rabbit-consumer.service.ts:176-276 | In crash-free runs every injected message has exactly one live copy, or was delivered, or was shed by a full dead queue, no copy exists that was not injected, and none is dispatched more than n + 1 times |
| `Ladder.RetryingEnds` | apps/notifier/src/messaging/rabbit-consumer.service.ts:99-102 | A crash-free run contains at most (n + 1) dispatches per injected message in all |
| `Failures.RetriedOrEnded` | apps/notifier/src/messaging/rabbit-consumer.service.ts:233-253 | Over every run: a handler republishes onto the ladder only if the channel never refused it for good and a stage is left, and settles FAILED only if the channel did or this was the last attempt |
| `Routing.KeysReachTheirQueue` | apps/notifier/src/messaging/rabbit-consumer.service.ts:121-174 | After setup on a bare broker a routing key reaches exactly its own queue when its channel is registered and its stage is on the ladder, and none otherwise; only a retry queue expires messages, after its stage's delay and back to the channel's main queue, and only the dead queue has a ceiling |
| `Routing.RepublishReachesOneQueue` | apps/notifier/src/messaging/rabbit-consumer.service.ts:248-253 | Every retry republish of every run, whatever its outcome, is addressed to exactly one declared queue |
| `Routing.KeyMatchesOwnBinding` | libs/contracts/src/routing.ts:11-38 | Under topic matching with wildcards, the key of one channel and stage matches the pattern of another if and only if they are the same |
| `Routing.NamesDiffer` | libs/contracts/src/routing.ts:16-42 | Queue names are injective over channels, stages and kinds |
| `Routing.DeployedNames` | libs/contracts/src/routing.ts:5-42 | The keys and queue names as deployed, channel by channel |
| `Routing.PlanLands` | apps/notifier/src/messaging/rabbit-consumer.service.ts:132-167 | The broker refuses the declarations if and only if some queue exists with other arguments; otherwise all of them, and nothing else, are added |
| `Routing.Broker.SetupTopology` | apps/notifier/src/messaging/rabbit-consumer.service.ts:121-174 | The nested declaration loops amount to the flat plan, stop at the first refusal, and leave a consumer on every channel's main queue |
| `Routing.Broker.SetupChannel` | apps/notifier/src/messaging/rabbit-consumer.service.ts:128-173 | One channel's main queue, retry stages, parking queue and consumer, in that order |
| `Routing.Broker.DeclareRungs` | apps/notifier/src/messaging/rabbit-consumer.service.ts:138-152 | One retry queue per delay, numbered from 1 |
| `Notifier.NotifierService.Dispatch` | apps/notifier/src/notifier.service.ts:73-115 | Without a sender a permanent failure and nothing touched; already SENT skipped; claimed within the last 60 000 ms left to its holder; otherwise the channel decides: a refusal is passed on with its permanence and the claim handed back, an acceptance settles SENT; each for every statement lost or landed unheard |
| `Notifier.RabbitConsumer.HandleFailure` | apps/notifier/src/messaging/rabbit-consumer.service.ts:227-258 | A permanent failure or a last attempt writes FAILED and publishes nothing but the dead-queue copy with its header as it was; any other failure leaves the log alone and publishes nothing but the next stage with the raised header; acked only if all that was asked was answered |
| `Notifier.RabbitConsumer.Process` | apps/notifier/src/messaging/rabbit-consumer.service.ts:209-225 | What does not parse is parked unread; an alert is acked only when its row reads SENT or it was published on; without a sender it ends FAILED and parked whatever its attempts |
| `Notifier.RabbitConsumer.Republish` | apps/notifier/src/messaging/rabbit-consumer.service.ts:278-293 | The publication reaches the broker exactly when it lands; the original is acked only on acceptance |
| `Notifier.DispatchIsARun` | apps/notifier/src/notifier.service.ts:73-115 | The dispatch as code leaves the log, and takes the handler where, a run of single statements of the protocol does |
| `Notifier.ProcessIsARun` | apps/notifier/src/messaging/rabbit-consumer.service.ts:209-276 | Whatever the database, broker and channel answer, the handler's log, acknowledgement and republished copy are those of a run of the protocol, so the run theorems speak about this code |
| `WebPush.WebPushChannel.Send` | apps/notifier/src/channels/webpush.channel.ts:38-106 | Result and new state of a fan-out for every reaction of every endpoint, failing reads and escaping prune errors included |
| `WebPush.WebPushChannel.FanOut` | apps/notifier/src/channels/webpush.channel.ts:61-105 | The loop keeps going after a failed endpoint and stops at an error escaping the prune |
| `WebPush.ResultIff` | apps/notifier/src/channels/webpush.channel.ts:38-106 | Told from the answers alone, in any order: permanent if and only if unconfigured, no subscriptions, or all pending ones gone and pruned; transient if and only if a read failed or some pending endpoint neither accepted with its mark answered nor was pruned |
| `WebPush.ReturnSettlesAll` | apps/notifier/src/channels/webpush.channel.ts:46-58 | A normal return means every subscription read is recorded as delivered or has been pruned |
| `WebPush.SendEffects` | apps/notifier/src/channels/webpush.channel.ts:64-96 | Endpoint by endpoint: exactly the expired pending subscriptions are pruned, exactly those that accepted are recorded, each accepting one is sent to once and in order, and status, claim and other rows stay |
| `WebPush.SentOncePerEndpoint` | apps/notifier/src/channels/webpush.channel.ts:46-82 | Over any number of attempts, crashed ones included, under claims, take-overs, releases, settles and changing subscriptions: an endpoint is sent to at most once more than its marks were lost, so at most once when every mark lands |
| `WebPush.ReachedOnlyGrows` | apps/notifier/src/persistence/prisma-delivery-log.repository.ts:38-103 | The delivered destinations only grow, as a prefix, through every claim, take-over, release, settle and attempt |
| `WebPush.FailsThoughDeliveredIff` | apps/notifier/src/channels/webpush.channel.ts:38-105 | A send fails for good although a browser was reached before if and only if the keys are missing, nobody is subscribed any more, or some subscription is still to be reached and all such are gone |
| `WebPush.RetryFailsThoughDelivered` | apps/notifier/src/channels/webpush.channel.ts:101-105 | A run: two browsers, one reached on the first attempt, the other expired by the retry, which reports a permanent failure |
| `WebPush.UnsubscribedRetryFails` | apps/notifier/src/channels/webpush.channel.ts:101-105 | The same run with the reached browser unsubscribed in between |
| `WebPush.NobodyLeftRetryFails` | apps/notifier/src/channels/webpush.channel.ts:42-45 | The same run with both unsubscribed: the retry fails for good whatever push services answer |
| `Pipeline.NoAlertLost` | apps/watcher/src/watcher.service.ts:310-350 | At every point of every run, every (event, channel) of a committed firing with declared queues is pending in the outbox, held by the broker, already sent, or shed by a full dead queue |
| `Pipeline.UndeclaredQueueLosesTheAlert` | apps/watcher/src/outbox/outbox-relay.service.ts:90-106 | For any undeclared channel, a run that commits, relays and marks a firing and leaves it nowhere |
| `Pipeline.NeverLostIff` | apps/notifier/src/messaging/rabbit-consumer.service.ts:126-133 | An alert can be found at every point of every run if and only if the queues of its channel are declared |
| `Outbox.OutboxExactness` | apps/watcher/src/persistence/prisma-watched-trigger.repository.ts:73-92 | With overlapping relays, crashes and repeated commits: nothing is relayed without a committed firing, a row reads published only after the broker accepted the message of that very row, every row ever staged is there unpublished or was accepted, live rows are unique per pair, a committed pair is pending or accepted, and one row was ever staged unless a commit is repeated after pruning |
| `Outbox.StagedOnceIffNotForgotten` | apps/watcher/src/persistence/prisma-watched-trigger.repository.ts:82-90 | A step keeps "one row ever per committed pair" if and only if it is not a commit repeated after its row was pruned |
| `OutboxRuns.RepeatedCommitStagesTwice` | apps/watcher/src/persistence/prisma-outbox.repository.ts:41-46 | A run that commits, relays, marks and prunes a firing, then repeats the commit, and has staged two rows for it |
| `Outbox.PendingRowLife` | apps/watcher/src/persistence/prisma-outbox.repository.ts:31-46 | No step removes an unpublished row, and only a mark after acceptance turns it published |
| `Outbox.PruneRemovesIff` | apps/watcher/src/persistence/prisma-outbox.repository.ts:41-46 | A sweep removes a row if and only if it was published before the cut-off |
| `Outbox.PassStopsAtFirstFailure` | apps/watcher/src/outbox/outbox-relay.service.ts:90-106 | Within any run no publish follows a failed one of the same pass, and a mark comes only after a failure or the whole batch |
| `Outbox.ReadsOnlyTheOldestPending` | apps/watcher/src/persistence/prisma-outbox.repository.ts:13-25 | A row once marked is never read again, and nothing a relay leaves behind is older than anything it takes |
| `Relay.OutboxRelay.PublishPending` | apps/watcher/src/outbox/outbox-relay.service.ts:83-110 | For every outcome of each publish and of the mark: a pass is told of exactly a prefix of the oldest-first batch, up to the first failure, the broker has that prefix and at most the failed message besides, and exactly the prefix is marked |
| `Relay.OutboxRelay.MarkPublished` | apps/watcher/src/persistence/prisma-outbox.repository.ts:31-39 | Row by row: ids and order stay, a listed id reads the new instant, every other keeps its own; an empty list writes nothing |
| `Relay.OutboxRelay.PrunePublished` | apps/watcher/src/persistence/prisma-outbox.repository.ts:41-46 | A row survives if and only if it is unpublished or was published at or after the cut-off; returns how many went |
| `Relay.FirstPublicationsInOrder` | apps/watcher/src/outbox/outbox-relay.service.ts:83-110 | Over any serialised passes, publishes that failed but landed, deaths before the mark, prunes and new firings, ids reach the broker for the first time in staging order with none skipped |
| `Relay.DrainsInCeilingPasses` | apps/watcher/src/outbox/outbox-relay.service.ts:83-110 | Without failures n passes empty the outbox if and only if n times the batch size covers what was pending |
| `RedisLock.RedisStore.AcquireLock` | libs/common/src/redis/redis.service.ts:230-234 | Succeeds exactly when no live key is there, and then the caller owns it; other keys untouched |
| `RedisLock.RedisStore.ExtendLock` | libs/common/src/redis/redis.service.ts:242-255 | Succeeds exactly for the owner of the live key, and only then moves the expiry |
| `RedisLock.RedisStore.ReleaseLock` | libs/common/src/redis/redis.service.ts:258-266 | Deletes the key exactly when the caller owns it live |
| `PollCycle.Fenced` | libs/common/src/redis/redis.service.ts:6-10 | While the key is held, only its owner's release removes it and only its owner's renewal moves its expiry |
| `PollCycle.HeldMeansOwned` | apps/watcher/src/watcher.service.ts:204-256 | In every run with renewal replies inside the TTL and no worker rejecting under a raised flag beside a running one: a cycle whose flag is up owns the unexpired key, at most one cycle with running workers has its flag up, and no two cycles of a shard can both start a location |
| `PollCycle.LockKeptIff` | apps/watcher/src/watcher.service.ts:180-182 | A step keeps ownership behind the flag, as an invariant, if and only if it is not a rejection under a raised flag beside a worker of the same cycle that is still running |
| `PollCycle.TruthfulFromIff` | apps/watcher/src/watcher.service.ts:180-182 | After a step every prompt continuation keeps raised flags truthful, a cycle at work under one owning the key, if and only if the step is not such a rejection |
| `PollCycle.OrphanRunsUnlocked` | apps/watcher/src/watcher.service.ts:116-119 | After such a rejection and the release that follows, a worker runs under a raised flag without the lock |
| `PollCycleRuns.InFlightOutlivesTheLock` | apps/watcher/src/watcher.service.ts:168-179 | A run with prompt replies and no rejection in which two cycles of the shard both have a location in flight |
| `PollCycle.SoloKeptIff` | apps/watcher/src/watcher.service.ts:105-126 | Two cycles of a shard come to overlap if and only if the lock is acquired while an earlier cycle still has work in flight |
| `PollCycle.OverlapHasFlagDown` | apps/watcher/src/watcher.service.ts:218-229 | While flags are truthful, every unfinished cycle at such an acquire has its flag down |
| `PollCycle.PoolTakesEachOnce` | apps/watcher/src/watcher.service.ts:163-183 | In every run, rejections included: groups taken and groups waiting are always exactly all groups once, in order; there are min(concurrency, groups) workers and at most `concurrency` groups in flight |
| `PollCycle.FinishedPoolPolledAll` | apps/watcher/src/watcher.service.ts:163-183 | A finished cycle that kept the lock and none of whose workers rejected polled every group |
| `PollCycle.DroppedFlagStopsWorkers` | apps/watcher/src/watcher.service.ts:168-179 | Once the flag drops it stays down and no further group is taken, rejections or not |
| `PollCycleRuns.RejectionLetsTwoCyclesStart` | apps/watcher/src/watcher.service.ts:180-182 | A run with prompt replies in which one rejection beside a running worker lets two cycles of the shard take locations |
| `Grouping.GroupByLocation` | apps/watcher/src/watcher.service.ts:258-272 | The map's groups are, key by key, exactly the triggers with that key in reading order; keys are listed once |
| `Grouping.GroupsPartition` | apps/watcher/src/watcher.service.ts:258-272 | Walking all groups visits each trigger as often as it was read, and two triggers share a group if and only if their coordinates snap together |
| `TriggerStateMachine.FiredIffNoMissSince` | libs/domain/src/trigger-state-machine.ts:40-61 | From ARMED, the state is FIRED if and only if some evaluation fired and every later one matched |
| `TriggerStateMachine.FiringsAreSpaced` | libs/domain/src/trigger-state-machine.ts:77-83 | Over any evaluation sequence, firings are matched, non-quiet and pairwise at least the cooldown apart |
| `TriggerStateMachine.FiringsAreMaximal` | libs/domain/src/trigger-state-machine.ts:40-83 | No schedule of matched, non-quiet evaluations spaced by the cooldown is longer than the firings |
| `TriggerStateMachine.DecisionIff` | libs/domain/src/trigger-state-machine.ts:40-61 | Outcome by outcome, both ways; what the cooldown holds back is never put down to quiet hours |
| `Deployment.CooldownHolds` | apps/watcher/src/watcher.service.ts:274-349 | With concurrent shards, flapping conditions, user edits, dying cycles and cycles that overlap without firing each other's rows: of any two firings of a trigger the later was decided at least its cooldown after the instant stored with the earlier |
| `Deployment.CooldownKeptIff` | apps/watcher/src/watcher.service.ts:285-349 | Over every run, whatever overlaps: the cooldown is kept if and only if every firing that lands would still be decided against the row as it is at the commit |
| `Deployment.BeginReads` | apps/watcher/src/persistence/prisma-watched-trigger.repository.ts:16-23 | A cycle starts with exactly the rows that are active and whose bucket modulo the shard count is its shard, as they are |
| `Deployment.EvaluationDecides` | apps/watcher/src/watcher.service.ts:284-307 | A firing is decided exactly when conditions match outside quiet hours and the cooldown is over; a row re-arms exactly when it had fired and they do not match; nothing else is written |
| `Deployment.RowAsWritten` | apps/watcher/src/persistence/prisma-watched-trigger.repository.ts:94-108 | Over every run a row is active, and has the cooldown, its last create or edit gave it: polling never touches what the owner sets |
| `Deployment.FiringHasHistory` | apps/watcher/src/watcher.service.ts:134-349 | Every firing on record was read while active by a cycle of the shard that owns it, evaluated matched and outside quiet hours at the recorded instant, and committed by that cycle |
| `Deployment.CurrentKeptIff` | apps/watcher/src/persistence/prisma-watched-trigger.repository.ts:73-92 | A step keeps every cycle's picture of its rows current if and only if it is not a landing firing that moves the last-fired instant of a row another cycle still awaits |
| `Deployment.NoOverlapNeverClobbers` | apps/watcher/src/sharding.ts:39-44 | Without overlapping cycles of a shard no such firing happens, because a row belongs to one shard |
| `Deployment.OverlapBreaksCooldown` | apps/watcher/src/watcher.service.ts:105-126 | A run of two overlapping cycles of one shard firing a trigger twice at one instant under a one-hour cooldown |
| `Watcher.CooldownFromTheLock` | apps/watcher/src/watcher.service.ts:105-349 | Locks, workers and rows of every shard in one machine: with prompt renewals, no orphaning rejection and every cycle that lost its flag drained before the next acquire, cycles of a shard never overlap and the cooldown is kept |
| `QuietHours.ParseIffClock` | libs/domain/src/quiet-hours.ts:29-40 | The parser accepts exactly the HH:MM texts of a day and reads each back |
| `QuietHours.QuietIffOnTheWay` | libs/domain/src/quiet-hours.ts:7-27 | The window holds if and only if both bounds parse and, going forward from the start, now comes before the end, past midnight or not |
| `Fnv.HashLocation` | libs/domain/src/location.ts:57-68 | The signed int32 loop with `Math.imul` and `>>> 0` computes FNV-1a and stays below 2^32 on every ASCII key |
| `FnvBits.XorBit` | libs/domain/src/location.ts:60 | Bit k of the exclusive or is set if and only if exactly one operand has it |
| `FnvBits.OneCharacterTells` | libs/domain/src/location.ts:57-68 | Two ASCII keys of one length that differ in a single place never share a hash, each round being a bijection modulo 2^32 |
| `FnvBits.KnownVector` | libs/domain/src/location.ts:58-65 | The published FNV-1a value of the text "a" |
| `Fnv.HashLocationSql` | prisma/migrations/20260817120000_trigger_location_bucket/migration.sql:12-32 | The BIGINT multiply-and-mask loop never overflows and computes the same FNV-1a |
| `Location.KeyIffSnapped` | libs/domain/src/location.ts:26-50 | Two coordinate pairs have the same key if and only if both coordinates snap to the same hundredths |
| `Location.SnapIsNearest` | libs/domain/src/location.ts:26-28 | Snapping gives n if and only if a hundredfold value lies in [n - 0.5, n + 0.5) |
| `Location.KeyTexts` | libs/domain/src/location.ts:48-50 | Keys spelled out: latitude first, hundredths, a minus sign where due |
| `Location.StampedBucket` | libs/domain/src/location.ts:70-73 | The bucket stamped by core-api is the specification's |
| `Location.BackfilledBucket` | prisma/migrations/20260817120000_trigger_location_bucket/migration.sql:34-35 | The backfill is defined for every coordinate pair and equals the stamped bucket |
| `Sharding.BucketsForShard` | libs/domain/src/location.ts:83-91 | The loop lists exactly the shard's buckets in order |
| `Sharding.ExactlyOneShard` | apps/watcher/src/sharding.ts:39-44 | For every shard count each bucket is selected by exactly one shard, the unrestricted single instance included |
| `Sharding.ShardsAreEven` | libs/domain/src/location.ts:83-91 | Bucket lists of any two shards differ in size by at most one |
| `TriggerRows.TriggersRepository.Create` | apps/core-api/src/triggers/triggers.repository.ts:67-79 | The new row's bucket is in step with its coordinates; other rows unchanged |
| `TriggerRows.TriggersRepository.Update` | apps/core-api/src/triggers/triggers.repository.ts:81-104 | Field by field what the patch carries, else what was there; the bucket moves only when both coordinates are given; all rows stay in step for patches with both or neither |
| `TriggerRows.TriggersRepository.Delete` | apps/core-api/src/triggers/triggers.repository.ts:106-108 | Removes the row and keeps the others in step |
| `TriggerRows.TriggersRepository.Backfill` | prisma/migrations/20260817120000_trigger_location_bucket/migration.sql:34-35 | Afterwards every row is in step, whatever its bucket was, and nothing but buckets changed |
| `TriggerRows.BucketIsOfTheStamp` | apps/core-api/src/triggers/triggers.repository.ts:67-104 | After any history of writes, one-coordinate patches included, a row's bucket is that of the coordinates of its creation or of its last patch that carried both |
| `TriggerRows.InStepIffStampAgrees` | apps/core-api/src/triggers/triggers.repository.ts:119-134 | After any history a row is in step if and only if the place it is at hashes to the bucket of the place it was last stamped for |
| `TriggerRows.EveryRowHasOneOwner` | apps/core-api/src/triggers/triggers.repository.ts:67-134 | After any history of writes whatever, every active row is polled by exactly one shard |
| `TriggerRows.PolledTogetherIff` | apps/core-api/src/triggers/triggers.repository.ts:89-94 | After any history two active rows are polled by the same instance under every shard count if and only if their stamps share a bucket; co-located rows in step always are |
| `TriggerRows.ColocatedRowsShareOwner` | apps/core-api/src/triggers/triggers.repository.ts:67-134 | After creates, deletes and patches with both coordinates or neither, rows at one snapped location are polled by the same shard under every shard count |
| `TriggerRows.OneCoordinateLeavesBucketStale` | apps/core-api/src/triggers/triggers.repository.ts:130-132 | A concrete one-coordinate patch leaves the row with the bucket of the place it left, and that bucket is wrong |
| `TokenStore.RefreshTokens.Refresh` | apps/core-api/src/auth/auth.service.ts:341-381 | A new token exactly for the genuine, unexpired, unspent one; the exchange leaves the old token spent, the new one live and all else unchanged; a replay revokes exactly its user's rows; anything else changes nothing |
| `TokenStore.ExchangedOnceThenReuse` | apps/core-api/src/auth/auth.service.ts:358-381 | Over any call sequence with fresh ids and a monotone clock a token is answered with a new one at most once, and a replay before its expiry leaves every row of its user revoked |
| `TokenStore.ResetAndSignIn` | apps/core-api/src/auth/auth.service.ts:215-248 | A sign-in adds one live row; a reset revokes exactly the user's rows |
| `TokenStore.RefreshTokens.RevokeFamily` | apps/core-api/src/auth/auth.service.ts:388-394 | Same rows; one is revoked afterwards if and only if it was before or belongs to the user; nothing else changes |
| `TokenStore.RefreshTokens.Logout` | apps/core-api/src/auth/auth.service.ts:396-411 | Afterwards the token is not spendable; no row appears or goes and no other row changes |
| `TokenStore.RefreshTokens.PruneStaleTokens` | apps/core-api/src/auth/auth.service.ts:428-451 | A row survives, unchanged, if and only if it has not expired, revoked or not |
| `TokenStore.SweepIsInvisible` | apps/core-api/src/auth/auth.service.ts:413-451 | With a monotone clock, prunes anywhere in a call sequence change no answer, and every unexpired row afterwards is as if nothing had been pruned |
| `TokenStore.SweepingRevokedHidesReuse` | apps/core-api/src/auth/auth.service.ts:413-427 | Had the sweep removed revoked rows too, replaying a spent token would leave the user's live token live |
| `RefreshRotation.ExchangedAtMostOnce` | apps/core-api/src/auth/auth.service.ts:363-381 | Over all interleavings and crashes no two tokens are issued in exchange for one refresh token, each goes to its owner, and an exchanged token is never spendable again |
| `RefreshRotation.RefreshIsARun` | apps/core-api/src/auth/auth.service.ts:341-381 | An uninterrupted refresh leaves the table and issues the token of a run of the interleaved statements |
| `RefreshRotation.OtherCallsAreRuns` | apps/core-api/src/auth/auth.service.ts:215-491 | So do sign-in, logout, reset and prune |
| `RefreshRotation.LoserRevokesTheFamily` | apps/core-api/src/auth/auth.service.ts:370-377 | Over every run, the next thing a request does after losing the compare-and-set is to revoke every row of the token's owner, unless it dies first |
| `RefreshRotation.ReuseRevokesTheFamily` | apps/core-api/src/auth/auth.service.ts:358-394 | Every row of the user present at the family revoke stays revoked for good, and a later live token descends from a new sign-in or from a refresh that had already won its compare-and-set |
| `RefreshRotation.SignedOutForGoodIff` | apps/core-api/src/auth/auth.service.ts:363-394 | At any point of any run at which all rows of a user are revoked, every continuation without a new sign-in keeps them so if and only if no request is waiting to insert a row for the user |
| `RefreshRotation.WinnerInsertsAfterTheRevoke` | apps/core-api/src/auth/auth.service.ts:370-381 | A run in which the reuse is detected and acted on, yet the winner's token is live afterwards |
| `Throttle.ThrottlerStorage.Script` | libs/common/src/redis/redis-throttler.storage.ts:16-30 | For all limits: the script counts into the live window or opens one (gone at once when the ttl is not positive), leaves a live block alone, sets one on overrun or dies on a block that is not positive, and touches no other client |
| `Throttle.ThrottlerStorage.Increment` | libs/common/src/redis/redis-throttler.storage.ts:43-87 | The record told from the keys left behind: blocked exactly while a block stands, seconds the least whole number covering the milliseconds left, a request over the limit blocked for the configured duration; unblocked with zero hits when Redis does not answer or the script dies |
| `Throttle.CountsTheWindow` | libs/common/src/redis/redis-throttler.storage.ts:17-20 | The stored counter equals the number of requests since the window opened, windows being defined by the calendar alone |
| `Throttle.WindowBound` | libs/common/src/redis/redis-throttler.storage.ts:16-87 | At most `limit` requests of any window are reported to the guard as not blocked |
| `Throttle.IntervalBound` | libs/common/src/redis/redis-throttler.storage.ts:16-87 | At most twice the limit is so reported in any stretch of length ttl, both ends included |
| `Throttle.BlockedThroughout` | libs/common/src/redis/redis-throttler.storage.ts:21-87 | A client reported blocked is reported blocked on every request until the block it was told of is up, and until the same instant |
| `Throttle.OverrunBlocks` | libs/common/src/redis/redis-throttler.storage.ts:25-28 | A request after `limit` others of its window is reported blocked, and if no block stood, so is every request before the configured duration, or the ttl when it is zero, is up |
| `Throttle.BlockedForACause` | libs/common/src/redis/redis-throttler.storage.ts:21-29 | A request reported blocked is preceded, within the block duration, by one that overran its window |

## Left out

- Notification history deletion: `NoAlertLost` allows it, the lease and send-count theorems exclude it, because it removes claims.
- The channels' own timeouts: that a call ends inside the 60 s lease is assumed, not derived.
- Test sends and replays of parked messages: they reach the broker without the outbox; they appear as injections in the delivery protocol and the outbox theorems do not cover them.
- Acknowledgements after a reconnect: a stale ack is ignored in the model, as the broker does for a delivery that is no longer the handler's; delivery-tag reuse on a new channel is not modelled.
- The consumer's draining, `inFlight` and cancellation at shutdown: a shutdown is a crash in the model.
- `parseDelays` and `positiveInt`: the ladder is any list of delays, the dead-queue ceiling any number.
- `Number` coercion of the x-attempts header: headers are naturals.
- Keys outside ASCII in `hashLocation`: `locationKey` only builds digits, a minus sign and a colon.
- Bulk deletion of a user's triggers: a sequence of single deletions.
- IEEE rounding inside `snap`: coordinates are exact reals.
- Time-zone conversion through `Intl`: the local minute is an input of the quiet-hours window.
- Redis evicting keys or failing over: a key lives through the millisecond of its expiry and no longer.
- The reset link of `resetPassword` and its account fields: only the revocation of the token rows is modelled.
- bcrypt, JWT signing and verification, SHA-256, UUIDs, metrics, logs and error texts.
- Condition evaluation, weather fetching and caching: only the boolean result of an evaluation enters.
- Controllers, DTOs, pinned cities, admin, profile, Telegram poller, login throttling, backups, dashboards: easy members or pure I/O.
