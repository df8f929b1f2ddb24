# Verified models of the backend's shared-state protocols

The backend pays out points, sells limited stock, moves events and elects leaders through rows,
Redis keys, files and queues that many goroutines and processes share. This project models those
protocols and proves what they keep over every run.

Each protocol comes in two forms that are proved to belong together.

- **A step machine.** The state is a value. Each atomic action of the program (one conditional
  UPDATE, one Lua script, one transaction, one file rename or append, one channel operation) is a
  step, and so are errors of calls to databases, Redis and brokers, errors whose effect took place all
  the same, and the death of a process between two steps. `Apply` performs one step, a step that is not enabled changes nothing, and
  `Exec` runs any list of steps, so a lemma about `Exec(Init(...), steps)` speaks about every
  interleaving.
- **Classes and loops as the program writes them.** Their methods are proved to compute the
  specification functions that the step machine or its lemmas use. Lemmas named `...IsARun` show
  that an undisturbed call is one of the interleaved runs.

| modules | what they model |
|---|---|
| `Outbox`, `OutboxRuns`, `OutboxLosses`, `OutboxApplier` | the points outbox: workers, deliveries and relay race for a row; answers that get lost; the relay pass |
| `Settlement`, `SettlementRuns`, `SettlementLosses`, `IdleService` | settling an idle session, the daily quota, starting with eviction |
| `Dlq`, `DlqRuns`, `DlqReplay` | the dead-letter files: append, rename, drain, write back, recover |
| `Producer`, `ProducerRuns`, `ProducerDrain`, `KafkaProducer` | the queue, the loop, overflow workers, the shutdown drain |
| `Consumer`, `ConsumerRuns`, `OffsetStore` | ordered commits, restarts, the offset file, the retry loop |
| `Lease`, `LeaderElection` | the token lock in Redis and the electors that use it |
| `Stock`, `ShopRepository` | stock split over buckets and probed from a hashed start |
| `FlashSale` | the Redis counters in front of a flash sale, and the row behind them |
| `Sharding` | which pod scans which shards, takeover of dead pods, partition assignment |
| `Window`, `Pagination`, `TaskProgress`, `Keys` | the rate window, cursors, task rows, key printing and parsing |
| `Sums`, `Messages`, `Decimals`, `Modular`, `Fnv` | shared arithmetic |

## Where the code does less than it says

Each of these comes with the exact condition under which the property does hold, and with a run or
an input for the other direction.

- A process that dies after Claim and before UpdatePoints leaves its row in `processing`, which
  nothing selects again: the comment that the relay guarantees eventual consistency does not hold
  for that row. A row can still be credited if and only if it is credited, pending or held
  (`OutboxRuns.CreditableIffNotOrphaned`).
- An UpdatePoints that reports an error for a change it made is requeued and paid again: at most once
  holds in every run if and only if that never happens (`OutboxLosses.AtMostOnceIffNoAnswerLost`).
- Without a daily limit nothing is reserved, yet a settlement that loses the race still decrements
  the counter: it is kept in every run if and only if no points are awarded
  (`SettlementRuns.NoLimitCounterKeptIff`).
- A closing transaction that commits and reports an error gives back quota that is confirmed: confirmed
  points stay within the counter in every run if and only if that never happens or no points are
  awarded (`SettlementLosses.QuotaHoldsIffNoAnswerLost`).
- After shutdown every message is with the broker or stored if and only if no Send came after the
  loop had exited (`ProducerRuns.AllDeliveredOrStoredIff`). Nothing that can be encoded is lost if
  and only if the dead-letter queue is on (`ProducerRuns.NothingElseLostIffDlqOn`); the same for a
  consumer (`ConsumerRuns.NothingDroppedIffDlqOn`).
- The program ignores errors of reading stored offsets. A restart passes over unfinished messages if and
  only if start_from_latest is set and it finds no persisted offset, because there is none or because
  reading it fails (`ConsumerRuns.RestartSkipsIff`); it does so for good if and only if there is none
  (`ConsumerRuns.SkippedForeverIff`). Persisted offsets never go back if and only if they are kept in
  SQL or the file is always loaded completely (`ConsumerRuns.PersistedNeverDecreasesIff`).
- RefreshLock cuts the ttl to whole seconds, so the lease is exclusive if and only if the ttl is whole
  seconds (`Lease.LeaseIsExclusiveIffWholeSeconds`).
- A Stop that overlaps a tick may leave the elector flagged. The flag stays down if and only if no
  tick of the process is in one of three places (`Lease.StopSticksIff`, for ticks begun before; the
  loop's select may also still pick its ticker after the stop channel is closed, and begin another).
- A bucket scan can report sold out too early: it agrees with the single row if and only if it asks
  for at most one unit or there is one bucket (`Stock.AgreesWithSingleRowIff`). A run
  conserves the stock if and only if every backfill uses a figure that is still the row's and no single-row
  deduction takes once buckets exist (`Stock.RunConservesIffFair`); a backfill that overlaps a deduction
  sells it twice (`Stock.OverlapLosesTheDeduction`). Splitting a stock is exact
  unless it is negative and does not divide evenly (`Stock.SharesAddUp`); every present caller passes a
  literal or a positive stock.
- Redis alone never hands out more flash-sale units than there are if and only if releases are matched
  to acquires and the stock key neither expires nor is reconciled (`FlashSale.NeverOversellsIff`). No user
  holds more than the limit if and only if the users key does not expire, or a matched and unreset sale
  has no more than one user's limit to give (`FlashSale.UserLimitHoldsIff`). The redeem flow releases only
  what it acquired, so expiry and reconciliation are the cases that occur; the sold_qty row bounds them
  (`FlashSale.SoldStaysWithinLimit`).
- The failover comment promises to take over only pods that were seen alive and have gone; the code
  does so if and only if every other pod has been seen (`Sharding.TakesOverAsDocumentedIff`). After a
  scale-in to one pod a leader whose index is not zero lists every shard twice, unless pod zero is seen
  alive
  (`Sharding.LeaderListHasNoDuplicatesIff`). The code is followed.
- The per-minute limit counts and records in two steps: it holds if and only if requests are handled
  one at a time (`Window.LimitHoldsIffOneAtATime`).

## Model

| member | source | states |
|---|---|---|
| OutboxRuns.AppliedAtMostOnceAndConserved | internal/service/common/points_outbox.go:95-107 | over every interleaving of workers, deliveries, relay passes, errors and crashes in which UpdatePoints reports truly, no event is credited twice, pending rows are not credited, done rows are, and each balance is its opening value plus the deltas of exactly the credited rows, never negative |
| OutboxLosses.LostAnswersAreAllThatRepeats | internal/service/common/points_outbox.go:95-107 | with errors that hide a paid update as well: each event is credited at most once more than it lost answers, pending and done rows exactly as often as that says, and balances are opening plus answered plus lost credits |
| OutboxLosses.AtMostOnceIffNoAnswerLost | internal/service/common/points_outbox.go:100-104 | every event is credited at most once in every run if and only if UpdatePoints never reports an error for a change it made |
| OutboxRuns.HistoryOnlyGrows | internal/repository/points_outbox_repo.go:40-81 | credits are never taken back, rows keep their user and delta, done is final |
| OutboxRuns.CrashAfterClaimStrands | internal/service/common/points_outbox.go:96-100 | a death between Claim and UpdatePoints strands the row: no continuation credits or moves it |
| OutboxRuns.CreditableIffNotOrphaned | internal/service/common/points_outbox.go:138-139 | with the balance there, some run still credits a row if and only if it is credited, pending, or held by a live worker |
| OutboxRuns.OrphanForever | internal/repository/points_outbox_repo.go:71-81 | a processing row without holder and credit stays so in every run |
| OutboxApplier.TryAppliedIsARun | internal/service/common/points_outbox.go:95-107 | an undisturbed tryApply is the run of its statements, for every combination of errors |
| OutboxApplier.PointsOutboxApplier.TryApply | internal/service/common/points_outbox.go:95-107 | rows, balances and answer after one call, for every error of each statement |
| OutboxApplier.PointsOutboxApplier.RelayOnce | internal/service/common/points_outbox.go:159-167 | one pass applies, in id order, the first 200 aged pending rows as they were read, or nothing if they cannot be read |
| OutboxApplier.PointsOutboxRepository.AppendInTx | internal/repository/points_outbox_repo.go:34-36 | the row is added unless its event id exists |
| OutboxApplier.PointsOutboxRepository.Claim | internal/repository/points_outbox_repo.go:40-54 | pending becomes processing for that event only; claimed exactly when the row was pending and no error was reported |
| OutboxApplier.PointsOutboxRepository.MarkDone | internal/repository/points_outbox_repo.go:57-67 | only a processing row becomes done |
| OutboxApplier.PointsOutboxRepository.Requeue | internal/repository/points_outbox_repo.go:71-81 | only a processing row returns to pending |
| OutboxApplier.PointsOutboxRepository.PendingOlderThan | internal/repository/points_outbox_repo.go:85-97 | the first rows in id order that are pending and older, at most limit, 200 when the limit is not positive |
| OutboxApplier.UserRepository.UpdatePoints | internal/repository/user_repo.go:178-194 | succeeds exactly when the user exists and stays at zero or above; otherwise nothing changes |
| OutboxApplier.BatchPaid | internal/service/common/points_outbox.go:164-166 | a batch of distinct aged rows is paid once each and nothing else is touched |
| OutboxApplier.PassPays | internal/service/common/points_outbox.go:159-167 | an undisturbed pass pays exactly min(200, aged) rows |
| OutboxApplier.PassesDrain | internal/service/common/points_outbox.go:140-157 | enough passes leave every aged row done, all others as they were, and each balance raised by exactly those deltas |
| SettlementRuns.PaidOnceAndConserved | internal/service/idle/idle_service.go:536-664 | however settlements race, a record leaves active at most once, has an outbox row exactly when it closed with points, for its user and amount, and balance plus unapplied idle points is opening plus earned plus other credits |
| SettlementRuns.EarnedNeverNegative | internal/service/idle/idle_service.go:541-565 | with a limit or a rate that is not negative, no run earns or holds a negative amount |
| SettlementRuns.ClosedForever | internal/repository/idle_repo.go:536-555 | a record that left active is never written again |
| SettlementRuns.QuotaNeverExceeded | internal/cache/manager.go:336-386 | with a limit and warm counters, confirmed plus held points stay within the counter and the counter within the limit, crashes and lost releases included, when a reported commit error is true |
| SettlementLosses.ShortByRefundsAtMost | internal/service/idle/idle_service.go:585-657 | with commits whose error is false as well, no counter exceeds the limit, and each falls short of confirmed plus held by no more than was given back for confirmed closes |
| SettlementLosses.QuotaHoldsIffNoAnswerLost | internal/service/idle/idle_service.go:626-632 | confirmed plus held points stay within the counter in every run if and only if no committed close is reported as an error, or no points are awarded |
| SettlementRuns.QuotaExactWithoutLosses | internal/service/idle/idle_service.go:548-657 | without crash or lost release the counter is exactly its start plus confirmed plus held |
| SettlementRuns.LosslessLeaksNothing | internal/service/idle/idle_service.go:629-657 | without crash or lost release every grant is confirmed, held or given back |
| SettlementRuns.GrantIsCapped | internal/cache/manager.go:336-355 | a grant is the wanted amount cut to the remaining quota and never negative |
| SettlementRuns.NoLimitCounterKeptIff | internal/service/idle/idle_service.go:548-657 | without a limit the counters stay as they were in every run if and only if the rate is not positive |
| IdleService.AfterSettleIsARun | internal/service/idle/idle_service.go:536-664 | an undisturbed settlement is the run of its acquire, close and release, for every error |
| IdleService.SettleTouchesOne | internal/service/idle/idle_service.go:536-664 | a settlement changes no record but its own, and that only while active |
| IdleService.IdleService.SettleSession | internal/service/idle/idle_service.go:536-664 | records, counter, outbox rows and answer after one call, for every error; when it applies, the record is closed with its whole minutes (at least one) times the rate, cut to what the day has left, an outbox row carries exactly that, and the counter has it; otherwise records and rows stay |
| IdleService.IdleService.CloseAndPay | internal/service/idle/idle_service.go:582-657 | its second half: the guarded close and the outbox row in one transaction, and the release when it does not take effect |
| IdleService.SettlePaysWholeMinutes | internal/service/idle/idle_service.go:537-565 | a settlement pays m minutes for a session of 60m to 60(m+1) seconds and one minute below two, cut to the day's rest; it applies to an active record whenever its calls work, and gives the quota back when it does not apply and Redis works |
| Settlement.PointsAreWholeMinutes | internal/service/idle/idle_service.go:537-543 | every length counts as some number of whole minutes, at least one, and is worth that many times the rate |
| IdleService.SettleSessionIsARun | internal/service/idle/idle_service.go:536-664 | the call, from reading the record on, is the run of its steps |
| IdleService.IdleService.AcquireDailyPoints | internal/cache/manager.go:336-377 | the grant, and the counter raised by it unless the script did not run; without a limit all that is wanted, uncounted |
| IdleService.IdleService.ReleaseDailyPoints | internal/cache/manager.go:380-386 | a positive grant is taken back off the counter |
| IdleService.IdleService.MarkSettled | internal/repository/idle_repo.go:536-555 | the record is closed exactly when it was active |
| IdleService.IdleService.Create | internal/repository/idle_repo.go:46-67 | a record is added exactly when the device has no active one |
| IdleService.IdleService.FindActiveAll | internal/repository/idle_repo.go:120-130 | the number of active sessions of the user and the one that began first |
| IdleService.IdleService.EvictOldestIfFull | internal/service/idle/idle_service.go:104-116 | with the limit reached exactly one session, the oldest, is completed and paid what its minutes are due; below it nothing happens |
| IdleService.IdleService.Start | internal/service/idle/idle_service.go:328-393 | undisturbed and for every failure of its calls: the number of active sessions never grows past the limit; on success the device is active and an existing session is kept; on failure nothing is added, unless the insert's error and the second lookup both hide it, and at most the oldest was closed |
| IdleService.IdleService.Stop | internal/service/idle/idle_service.go:432-452 | every active session of the user is settled in turn up to the first error, and paid in full without a limit; nothing else is touched, and a user without a session is told so |
| DlqRuns.NothingLost | internal/mq/dlq.go:96-267 | after any interleaving of appends, replay steps, crashes and recoveries every written message is, with multiplicity, acknowledged or stored in the main or snapshot file, every line that cannot be decoded is stored, and nothing else is |
| DlqRuns.ExactWithoutCrashes | internal/mq/dlq.go:96-267 | without crashes, between files, written equals acknowledged plus stored, message by message, and no undecodable line is gone or doubled |
| DlqRuns.RenameNeverOverwrites | internal/mq/dlq.go:176-190 | no file is renamed onto a snapshot that still exists |
| DlqRuns.StepKeepsBooks | internal/mq/dlq.go:151-267 | each step of replay and recovery keeps the account of every non-blank line of every topic |
| DlqReplay.ReplayFileIsARun | internal/mq/dlq.go:176-249 | a file replayed with nobody in between is the run of its rename, relays, write-backs and removal, and leaves what the pass function says |
| Dlq.ScanAllIs | internal/mq/dlq.go:193-245 | a pass acknowledges exactly the messages up to the first stop and keeps all other non-blank lines in order, undecodable ones included |
| Dlq.WithoutSplits | internal/mq/dlq.go:204-245 | up to some line a pass sends every message and keeps what it cannot decode, and from there on it keeps everything that is not blank |
| Dlq.JunksStay | internal/mq/dlq.go:214-218 | no pass loses or reorders a line that cannot be decoded |
| Dlq.SentIsFirstStop | internal/mq/dlq.go:210-223 | nothing is sent after the first failure or past the batch maximum, and the pass stops for no other reason |
| Dlq.PassSplitsMessages | internal/mq/dlq.go:193-245 | acknowledged and kept messages together are the snapshot's, in order |
| Dlq.DlqStore.Append | internal/mq/dlq.go:96-130 | the message becomes the last line of its topic's file, unless the store is off, it cannot be encoded, or the existing file is full |
| Dlq.DlqStore.RecoverLeftovers | internal/mq/dlq.go:151-172 | every leftover snapshot is appended to its main file and removed |
| Dlq.DlqStore.DrainSnapshot | internal/mq/dlq.go:193-249 | what is sent, and that the main file then ends with the rest of the snapshot, its undecodable lines included; no other topic is touched |
| Dlq.DlqStore.WriteBack | internal/mq/dlq.go:252-267 | the lines are appended in order |
| Dlq.DlqStore.ReplayFile | internal/mq/dlq.go:176-190 | one file is replayed through a snapshot and left with the rest, its undecodable lines included; other topics are untouched |
| Dlq.DlqStore.ReplayAll | internal/mq/dlq.go:134-148 | unless the store is off, every topic, leftovers included, is replayed once and keeps its undecodable lines, and no snapshot remains |
| ProducerRuns.ExactlyOnePlace | internal/mq/producer_base.go:73-158 | after every step of every run the messages in queue, hand, overflow workers, dead-letter queue, broker and lost are those sent plus one copy for each publish in doubt, so each is in exactly one place if and only if none was in doubt; queue and workers are within capacity |
| ProducerRuns.CertainRunsDoubleNothing | internal/mq/kafka.go:207-221 | only a publish or relay whose error hides a delivery leaves a second copy |
| ProducerRuns.NothingElseLostIffDlqOn | internal/mq/producer_base.go:120-179 | in every run with working file appends only messages that cannot be encoded are lost, if and only if the dead-letter queue is on |
| ProducerRuns.AllDeliveredOrStoredIff | internal/mq/kafka.go:147-241 | once loop and workers have exited, everything sent is with the broker or in the dead-letter queue if and only if no Send queued a message after the loop had gone |
| ProducerRuns.DrainTerminates | internal/mq/kafka.go:151-172 | the shutdown drain takes no more steps than the work it found, plus two for each later Send |
| ProducerRuns.DrainNeverStuck | internal/mq/kafka.go:151-172 | until it exits, the drain has a step to take |
| ProducerRuns.LateStaysLate | internal/mq/producer_base.go:73-78 | a late Send is never made good: what is queued then stays queued and the condition above stays false |
| Producer.StepPlaces | internal/mq/producer_base.go:73-158 | every step moves messages between places and only Send adds one |
| KafkaProducer.DrainEmptiesQueue | internal/mq/kafka.go:154-172 | the drain empties the queue, keeps every message in one place, asks the broker within its budget and loses nothing that can be stored |
| KafkaProducer.DrainPublishesFirst | internal/mq/kafka.go:154-172 | with a broker that takes everything, the first 200 messages are published in order and the others stored |
| ProducerDrain.DrainIsARun | internal/mq/kafka.go:151-172 | the drain with nobody in between is the run of its steps and ends as the method says |
| KafkaProducer.FlushedPlaces | internal/mq/kafka.go:226-241 | flushing moves the whole queue to the dead-letter queue and never asks the broker |
| KafkaProducer.KafkaProducer.constructor | internal/mq/producer_base.go:54-67 | a new producer is the initial state of the step machine, defaults applied |
| KafkaProducer.KafkaProducer.AppendDlq | internal/mq/producer_base.go:170-179 | the message goes to the dead-letter queue, or is lost when that is off or fails |
| KafkaProducer.KafkaProducer.SendOne | internal/mq/kafka.go:194-222 | the places after one publish and the error returned |
| KafkaProducer.KafkaProducer.Send | internal/mq/producer_base.go:73-105 | the message is queued if there is room, else given to a free overflow worker, else stored or lost |
| KafkaProducer.KafkaProducer.ProcessNext | internal/mq/producer_base.go:120-158 | the head is published, requeued or stored; only an open breaker requeues |
| KafkaProducer.KafkaProducer.WorkOne | internal/mq/producer_base.go:82-97 | an overflow worker publishes or stores its message |
| KafkaProducer.KafkaProducer.DrainToDlq | internal/mq/kafka.go:226-241 | the loop computes the flush |
| KafkaProducer.KafkaProducer.Drain | internal/mq/kafka.go:154-172 | the loop computes the budgeted drain |
| ConsumerRuns.NothingSkipped | internal/mq/kafka_consumer.go:494-561 | for any settings, partitions, crashes, failed flushes and failed reads, every message below a stored offset, in memory or on disk, from where the partition was last opened without finding one (the first message unless start_from_latest), was handled, skipped as a duplicate, dead-lettered or dropped |
| ConsumerRuns.NothingDroppedIffDlqOn | internal/mq/kafka_consumer.go:565-597 | in every run with working appends nothing is dropped, if and only if the dead-letter path is set |
| ConsumerRuns.SuccessIsNeverDropped | internal/mq/kafka_consumer.go:565-591 | for any settings, nothing is dropped while messages can be decoded and handlers succeed |
| ConsumerRuns.CommittedEventsAreSkipped | internal/mq/kafka_consumer.go:530-539 | with SQL, an event whose commit worked is passed over by every later reader that holds it again, without running the handler |
| ConsumerRuns.ResumesWhereItStopped | internal/mq/kafka_consumer.go:248-260 | in any reachable state a restarted reader begins at exactly the persisted offset if it finds it, otherwise at the end with start_from_latest and at the beginning without; one opened later goes by the offset in memory |
| ConsumerRuns.PersistedNeverDecreasesIff | internal/mq/consumer_progress.go:75-122 | in every run persisted offsets never go back and never run ahead of memory, if and only if they are kept in SQL or every load of the file is complete |
| ConsumerRuns.RestartSkipsIff | internal/mq/kafka_consumer.go:248-260 | after a crash in any reachable state, a restarted reader begins past a message its predecessor had not finished if and only if start_from_latest is set and no persisted offset is found: there is none, or its read fails |
| ConsumerRuns.SkippedForeverIff | internal/mq/kafka_consumer.go:248-260 | no later run deals with such a message if and only if start_from_latest is set and nothing was persisted, whatever reads fail |
| ConsumerRuns.PassedForever | internal/mq/kafka_consumer.go:257-260 | a position below every stored offset and reader is never dealt with again |
| ConsumerRuns.AnyOrderGivesMaximum | internal/mq/consumer_progress.go:100-107 | in any commit order the stored offset is the maximum of its start and the offsets committed |
| OffsetStore.FileProgressStore.Get | internal/mq/consumer_progress.go:83-88 | the stored offset and whether there is one |
| OffsetStore.FileProgressStore.Set | internal/mq/consumer_progress.go:100-107 | the offset is raised, never lowered, and no other partition changes |
| OffsetStore.FileProgressStore.Flush | internal/mq/consumer_progress.go:110-122 | the file holds the whole map, or is untouched when writing fails |
| OffsetStore.FileProgressStore.Commit | internal/mq/consumer_progress.go:131-137 | memory is raised, and the file follows when the commit is synchronous and works, which is the commit step of the runs |
| OffsetStore.FileProgressStore.CommitAll | internal/mq/kafka_consumer.go:507-512 | commits of concurrent workers in arrival order give the folded map |
| OffsetStore.Process | internal/mq/kafka_consumer.go:565-597 | the message is dead-lettered exactly when no allowed attempt succeeds, with the doubling capped delays |
| Lease.LeaseIsExclusiveIffWholeSeconds | internal/cache/l2.go:265-351 | in every run of any processes, threads, errors and crashes at most one token holds an unreleased lease younger than the ttl, if and only if the ttl is whole seconds |
| Lease.NobodyTouchesAnothersKey | internal/cache/l2.go:249-318 | in every run a refresh or unlock changes the key only when it holds a token of the same process |
| Lease.AbandonedLockIsFreeWithinTtl | internal/cluster/leader.go:22-25 | one ttl after the last renewal any live process can lock |
| Lease.FlagsMayOverlap | internal/cluster/leader.go:97-101 | a run from the start ends with two flagged electors, only the second of which holds the lease |
| Lease.OneProcessHoldsTheLease | internal/cluster/leader.go:22-28 | in every run with a whole-second ttl at most one process holds the lease, whoever is flagged |
| Lease.StopSticksIff | internal/cluster/leader.go:83-139 | in any reachable state a lowered flag stays down in every continuation without a new tick of that process, if and only if the process is dead or none of its calls has won a lock it has not stored, is about to raise the flag, or refreshes a key that still holds its token |
| Lease.StopDuringLockLeavesLeader | internal/cluster/leader.go:128-139 | a run from the start in which a Stop overlaps a tick's SET NX and leaves key, lease and flag behind |
| LeaderElection.TickIsARun | internal/cluster/leader.go:83-107 | an undisturbed tick is the run of its steps, for every error |
| LeaderElection.StopIsARun | internal/cluster/leader.go:128-139 | an undisturbed Stop is the run of its steps and ends the lease of its token |
| LeaderElection.StopFreesTheLock | internal/cluster/leader.go:128-139 | after a Stop that reached Redis while its token was in the key, the key is free and any live process that locks holds the lease |
| LeaderElection.RedisServer.SetIfAbsent | internal/cache/l2.go:265-274 | the key is set exactly when absent or expired |
| LeaderElection.RedisServer.EvalRefresh | internal/cache/l2.go:310-317 | the expiry moves exactly when the key holds the token, by the ttl cut to seconds |
| LeaderElection.RedisServer.EvalUnlock | internal/cache/l2.go:248-254 | the key is free afterwards exactly when it was live with the token and the call took effect, and otherwise as before |
| LeaderElection.LeaderElector.TryLock | internal/cache/l2.go:265-284 | key, local token and answer after one Lock |
| LeaderElection.LeaderElector.RefreshLock | internal/cache/l2.go:337-351 | key, local token and answer after one RefreshLock; a refusal forgets the token, an error does not |
| LeaderElection.LeaderElector.Unlock | internal/cache/l2.go:301-307 | the token is forgotten in any case, and the key freed if it was live with that token |
| LeaderElection.LeaderElector.TryAcquireOrRenew | internal/cluster/leader.go:83-107 | key, token and flag after one tick; errors keep the flag |
| LeaderElection.LeaderElector.Stop | internal/cluster/leader.go:128-139 | only the first Stop releases: flag and token go, and the key is free if it was live with the token |
| Stock.Conserved | internal/repository/shop_repo.go:223-261 | however scans interleave, for any quantities, what is left plus what was taken stays the same over every fair run |
| Stock.RunConservesIffFair | internal/repository/shop_repo.go:223-313 | from any initial stock, in runs whose quantities are not negative, what is left plus what was taken is the initial stock if and only if every step was fair |
| Stock.OverlapLosesTheDeduction | internal/repository/shop_repo.go:294-313 | a run from the start in which a backfill overlaps a deduction and the quantity is there to be sold again |
| Stock.StepConservesIffFair | internal/repository/shop_repo.go:294-313 | a step keeps the books exactly when it is fair: a backfill uses a figure that is still the row's, and no single-row deduction takes once buckets exist |
| Stock.BucketedRunIsFair | internal/repository/shop_repo.go:243-261 | once buckets exist and no single-row scan is left, every run is fair |
| Stock.NeverNegative | internal/repository/shop_repo.go:248-250 | row and buckets are never negative in any run, for any quantities |
| Stock.FailureIsReal | internal/repository/shop_repo.go:243-261 | a failed scan for q leaves every bucket below q, whatever the others did meanwhile; for one unit the stock is zero |
| Stock.UnitRequestsSellTheStock | internal/repository/shop_repo.go:210-222 | of m finished interleaved unit requests exactly min(m, stock) win |
| Stock.AgreesWithSingleRowIff | internal/repository/shop_repo.go:231-261 | a scan answers like the single row for every stock if and only if it asks for at most one unit or there is one bucket |
| Stock.SharesAddUp | internal/repository/shop_repo.go:276-289 | the buckets add up to the total if and only if it is not negative or divides evenly |
| Stock.EveryBucketIsProbed | internal/repository/shop_repo.go:244-246 | probing from any start meets every bucket |
| ShopRepository.MakeBuckets | internal/repository/shop_repo.go:277-289 | n buckets, larger first, differing by at most one, adding up exactly when the total allows |
| ShopRepository.ItemStock.DeductStock | internal/repository/shop_repo.go:223-261 | succeeds exactly when some bucket (or the row) has the quantity, takes it from the first such bucket in probe order, and touches no other |
| ShopRepository.ItemStock.Backfill | internal/repository/shop_repo.go:294-313 | buckets are made only for stock without buckets, and what is available does not change |
| ShopRepository.ScanIsARun | internal/repository/shop_repo.go:243-257 | an undisturbed scan that finds a bucket is the run of its attempts |
| ShopRepository.DeductIsARun | internal/repository/shop_repo.go:243-257 | the whole call starts at the bucket of its key and takes from the first that has the quantity |
| ShopRepository.FailingScanIsARun | internal/repository/shop_repo.go:243-261 | and one that finds none is the run that tries every bucket and changes nothing |
| FlashSale.RedisNeverOversells | internal/cache/manager.go:408-487 | with fixed limits, matched releases and a stock key that is not reset, what users hold plus what is left never exceeds the seed, whether or not the users key expires, and equals it while no answer or release is lost |
| FlashSale.NeverOversellsIff | internal/cache/manager.go:408-533 | that bound holds in every run if and only if releases are matched and the stock key neither expires nor is reconciled |
| FlashSale.NobodyExceedsTheLimit | internal/cache/manager.go:419-424 | while the users key does not expire nobody holds more than the limit, stray releases and new counters included |
| FlashSale.UserLimitHoldsIff | internal/cache/manager.go:419-435 | nobody holds more than the limit in any run if and only if the users key does not expire, or releases are matched, the stock key is not reset and the quantity is within one user's limit |
| FlashSale.SoldStaysWithinLimit | internal/repository/shop_repo.go:503-524 | sold_qty stays within [0, limit_qty] in every run, whatever Redis holds and its callers state |
| FlashSale.NoMoreSalesThanUnits | internal/repository/shop_repo.go:503-524 | in every run sold_qty is the answered sales less those taken back, so sales never exceed the quantity plus returns; a sale is answered exactly while units are left |
| FlashSale.AlwaysBounded | internal/cache/manager.go:408-533 | over every run with fixed limits, stray releases, losses, reconciles and expiries included, the stock is not negative and user counts stay within the limit |
| FlashSale.StepConservesIffFair | internal/cache/manager.go:469-477 | exactly which steps keep stock plus user counts: a release only for a user with a count |
| FlashSale.FlashSaleStore.TryAcquireFlashSale | internal/cache/manager.go:408-467 | the keys and the answer, the user's limit checked first, a limit of zero or less meaning one |
| FlashSale.FlashSaleStore.ReleaseFlashSale | internal/cache/manager.go:469-485 | the stock goes up in any case, the count only if positive |
| FlashSale.FlashSaleStore.WarmupFlashSale | internal/cache/manager.go:489-494 | only a missing counter is written |
| FlashSale.FlashSaleStore.ReconcileFlashSale | internal/cache/manager.go:525-533 | the counter is overwritten, clamped at zero, user counts stay |
| FlashSale.FlashSaleStore.AcquireFlashQuota | internal/repository/shop_repo.go:503-514 | answers yes exactly below the limit, and then sold_qty is one more |
| FlashSale.FlashSaleStore.ReleaseFlashQuota | internal/repository/shop_repo.go:517-524 | sold_qty falls by one unless it is zero |
| Sharding.OwnListsPartitionTheShards | internal/service/idle/scan_sharding.go:157-175 | every shard is on exactly one pod's list, once |
| Sharding.FilterAgreesWithListIff | internal/service/idle/idle_service.go:173-178 | for any index and total a pod accepts a user's event exactly when the user's shard is on its list, if and only if the shard count is positive or the pod is not the first of several |
| Sharding.LeaderListHasNoDuplicatesIff | internal/service/idle/scan_sharding.go:40-50 | for any index and total a leader's list has no duplicates if and only if the pod whose dead list would repeat its own is alive, or it owns nothing |
| Sharding.LeaderAndAlivePodsCoverOnceIff | internal/service/idle/scan_sharding.go:40-50 | every shard is scanned by the leader or by exactly one other alive pod, never both, if and only if there are several pods, the leader is the first, or the first is dead |
| Sharding.OwnedMembers | internal/service/idle/scan_sharding.go:40-50 | a list holds the pod's own shards and, for a leader only, those whose pod is dead |
| Sharding.KnownShards | internal/service/idle/scan_sharding.go:18-25 | the shards of two known user ids |
| Fnv.PublishedValues | internal/repository/shop_repo.go:24-28 | the hash has the published values of FNV-1a for three strings |
| Sharding.TakesOverAsDocumentedIff | internal/service/idle/idle_service.go:187-191 | the documented takeover is what happens if and only if every other pod was seen before |
| Sharding.UnseenPodsAreTakenOver | internal/service/idle/idle_service.go:234-246 | a leader that has seen only itself takes every shard in its second round |
| Sharding.InstancesPartitionTheTopic | internal/mq/kafka_consumer.go:775-794 | each partition goes to exactly one instance with its multiplicity; bad settings read everything |
| Sharding.CalcPodSetShards | internal/service/idle/scan_sharding.go:157-175 | the list holds exactly the shards of the pod, without duplicates |
| Sharding.ComputeOwnedShards | internal/service/idle/scan_sharding.go:40-50 | own shards, then for a leader those of the dead pods in order |
| Sharding.AssignPartitions | internal/mq/kafka_consumer.go:775-794 | the loop computes the assignment |
| Sharding.ShardScanner.Reconcile | internal/service/idle/idle_service.go:207-251 | what is scanned and remembered after a round, and exactly when a shard is listed twice |
| Window.SlidingWindow.Record | internal/middleware/captcha.go:48-65 | the history grows by now, and the answer counts the last minute of the whole history, ends included |
| Window.SlidingWindow.Count | internal/middleware/captcha.go:67-80 | the count is that of the whole untrimmed history, strictly less than a minute back |
| Window.SlidingWindow.Cleanup | internal/middleware/captcha.go:82-98 | exactly the times older than five minutes go, and no later count notices |
| Window.SlidingWindow.Admit | internal/middleware/security.go:37-69 | admitted exactly when fewer than limit were recorded in the last minute; refused requests are not recorded |
| Window.NoMinuteAdmitsMore | internal/middleware/security.go:56-68 | with at most m requests at a time no minute admits more than limit + m - 1 |
| Window.RushReachesTheBound | internal/middleware/security.go:61-67 | and some run admits that many |
| Window.LimitHoldsIffOneAtATime | internal/middleware/security.go:61-67 | the limit holds in every run if and only if requests are handled one at a time |
| Pagination.WalkIsExact | internal/service/common/cursor.go:9-17 | following the cursors, for any limit and whatever is inserted meanwhile, yields every record that existed at the start once in descending order, in full pages |
| Pagination.PageLeavesRest | internal/repository/idle_repo.go:796-817 | a page is the next rows, has_more is exact, and the next cursor selects exactly the rest |
| Pagination.MatchingIsExact | internal/repository/idle_repo.go:803-813 | the query selects the user's records below the cursor, each once, in descending id order |
| TaskProgress.ProgressIsExact | internal/repository/task_repo.go:179-255 | in every run progress is the sum of the calls that took effect, each once despite retries and lost answers, completed means a positive target was reached, and a reward is claimed at most once, only when completed |
| TaskProgress.ClaimedIsFrozen | internal/repository/task_repo.go:231-254 | a claimed row never changes again and a completion time stays |
| TaskProgress.AtMostThreeTries | internal/repository/task_repo.go:186-197 | no call is in a fourth try in any run |
| TaskProgress.DeadlocksAreRetried | internal/repository/task_repo.go:186-204 | a deadlock in either statement changes nothing and starts the call over, until its third try |
| TaskProgress.TaskRepository.IncrProgressOnce | internal/repository/task_repo.go:208-237 | the row after one try, for every failure of either statement |
| TaskProgress.TaskRepository.IncrProgress | internal/repository/task_repo.go:179-205 | applied exactly once on success unless claimed, on an error not at all or once if the error hid it; the answer is that of the first try that is not a deadlock, of at most three, or a cancellation between tries |
| TaskProgress.TaskRepository.ClaimReward | internal/repository/task_repo.go:240-255 | succeeds exactly on a completed unclaimed row |
| Keys.HeartbeatKeyRoundTripIff | internal/repository/idle_repo.go:223-235 | parsing inverts printing if and only if the user id has no colon and the prefix does not contain the marker |
| Keys.ActiveMemberRoundTripIff | internal/repository/idle_repo.go:179-219 | parsing inverts printing if and only if the user id has no 0x1f |
| Keys.ActiveMemberPrintsBack | internal/repository/idle_repo.go:212-219 | printing inverts parsing on members with a separator; others parse to empty ids |
| Keys.OffsetKeyInjective | internal/mq/consumer_progress.go:73 | two partitions never share a key |

## Left out

- HTTP handlers, configuration, logging, tracing, metrics, mail and captcha providers, and the L1/L2 cache layers in front of the tables: reads see the current rows.
- Redis, the database, the broker client and the breaker library themselves: a script, statement or publish is one atomic step with any outcome the caller can see. A transaction that reports an error is taken to have changed nothing, except in `SettlementLosses`.
- Integer widths: points, quantities and offsets are unbounded. The 32-bit hash wraps as in the program.
- The cold prewarm of the daily counter, settlements that straddle midnight, and a deployment without Redis, where nothing is capped.
- OutboxRuns.AppliedAtMostOnceAndConserved: in these runs, and in those of settlement, UpdatePoints reports an error only when it changed nothing; `OutboxLosses` has the runs in which it may not.
- OutboxApplier.PassPays: for passes without errors or competitors, with deltas that are not negative and existing users; interleaved passes are covered by OutboxRuns.
- SettlementRuns.PaidOnceAndConserved: the points ledger row written in the same transaction, the daily summary and the published event are not modelled, and the outbox is always configured.
- IdleService.IdleService.SettleSession: writes records, counter and outbox rows only; the ledger row of the same transaction and the daily summary are left out.
- IdleService.IdleService.Start: the device limit is a check before an insert, so only the undisturbed call keeps it (Stop and Start here run alone, and Stop visits sessions in id order); heartbeat keys and the active set are not modelled, and of two sessions with the same start time the one with the smaller id counts as oldest.
- DlqRuns.NothingLost: every file operation succeeds and every line fits the scanner; only written messages are counted, so a message the size cap drops is not, and `.corrupt` files are not modelled. An append is never torn by a crash.
- The backlog gauge across restarts; `Dlq.DlqStore` counts it within one process.
- ProducerRuns.DrainTerminates: bounds the steps of the drain itself; the five-second close timeout is not modelled. RocketMQ and RabbitMQ drains are not part of this model.
- ConsumerRuns.NothingSkipped: for ordered commits; concurrent mode only has the maximum law. Fetch back-off and partition refresh are left out.
- Lease.LeaseIsExclusiveIffWholeSeconds: time is in whole milliseconds, the ttl is positive, and a lease counts from the moment the server executed the command.
- Stock.FailureIsReal: no rollback or restock returns stock while scans run. The count of bucket rows is the current one; a replica that lags behind could answer zero.
- FlashSale: the redeem flow that calls these scripts is only represented by which releases are matched. The counters of ordinary redemptions follow the same pattern without per-user counts and are left out.
- Window: the whitelist of addresses and changes of the limit at run time.
- Pagination.WalkIsExact: records are only appended with larger ids; the item list with its category filter pages the same way.
- TaskProgress.ProgressIsExact: right-hand sides of one UPDATE read the old row, which is not how MySQL evaluates them. Period resets are left out.
- Sharding: DNS discovery of the pod count and the order in which two pods learn of a change.
- Connection counting, the degrade counter and retry back-off of the producer are left out as easy.
