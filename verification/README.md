# AgentHub runtime: a verified model

This project models the parts of the AgentHub multi-agent runtime whose correctness is hardest to see by reading, and proves what they are for.

**Event bus.** Events of a run travel through a per-run serial dispatcher (`Dispatcher`, `DispatcherRuns`, `RunDispatchers`), which keeps one bounded FIFO and at most one worker per runId. Each region the source runs under its mutex is one step of a transition system; producers and workers interleave freely. The in-memory transport (`MemoryModel` … `MemoryMetrics`, `MemoryDrain`, `MemoryBuses`, `MemoryDelivery`, `MetricsHooks`) is a larger transition system over it: publishing with injected duplicates, the pump, in-place retries, the dead-letter list, the check-then-act duplicate guard (`Dedupe`), hooks, cancellation, `Close` and successive `Consume` loops. At most one success per event needs three things together, and the proof combines them: the derived eventId determines its run (`Identity`), one worker per run (`SerialGuard`), and the guard. The Redis consumer (`RedisModel` … `RedisRetries`, `RedisRows`, `RedisClock`, `RedisConsumers`, `RedisDelivery`, `DeadLetters`) is a third transition system, against a server with a stream, a group position and a pending list; a command's effect and the reply the client sees are independent, and a crash or a restart may come at any step. A claim may take any pending entries; `RedisClock` adds the idle times that decide which.

**Model context.** `Context` and `ContextLaws` are the window selector `BuildContext`: marking, pair linking and oldest-first trimming over a mutated array, with the exact failure, closure and idempotence conditions.

**Scanners.** `Fences` and `FencePrinting` are the fenced-block parser of the code agent; `Expand` and `ExpandLaws` are `${VAR}` expansion.

**Browser client.** `EventStream`, `EventStreamLaws` and `EventStreamCuts` are the incremental block splitter of the live stream, `Recovery` and `RecoveryLaws` the (seq, subIndex) cursor and the replay.

**Pairing after pruning.** `PairedCalls` and `PairedCallsLaws` are `EnsurePairedFunctionCalls`.

Code that updates state is written as classes and loops; each method is proved equal to a function of the old state, and the laws are lemmas about those functions and about all runs of the transition systems. What each function computes is also stated without it, in the source's own values (the lemmas and clauses called exactly). Strings that the source treats as bytes are sequences of characters, one per byte.

## What turned out to hold only under a condition

Each of these has the exact condition proved, both ways unless said otherwise.

- A `subIndex` of eleven or more digits is refused by validation although its derived ids are correct (`Identity.IdentityAcceptedExactly`).
- A pending scan limited to `Count` rows misses entries exactly when the pending list is longer. The attempt derived for a claimed entry is wrong exactly when the scan missed it and it had more than one delivery: a blind claim. Every attempt of a run is right exactly when the run has no blind claim, and then the retry budget holds; with blind claims the handler may run for one entry any number of times, by runs that a server claiming by idle time can produce (`RedisClock.BlindClaimsNeverEnd`).
- A dead-letter row is refused by its own validation exactly when the frame carries a timestamp that parses but is not in UTC form. An entry that does not decode can be acked in some run exactly when it carries none (`RedisRows.AckedInSomeRunExactly`); one that does stays pending for ever and breaks off every reclaim pass that claims it with a derived attempt past the budget. A pass whose scan missed it derives attempt 2 and goes on.
- `BuildContext` keeps call/result pairs whole under all limits exactly when both halves of each pair are protected alike, and building twice is building once exactly when no protected result has an unprotected call (unique call ids, text in every half).
- Chunking the live stream makes no difference, for any text, exactly when dropping every CR in front of an LF leaves its blocks the same (`EventStreamCuts.CutsAgreeExactly`); texts without CR CR LF are of that kind, and among texts that end at a blank line only those.
- A replay repeats nothing of the run that was delivered live exactly when each of the run's events from before the last change of run is at most (0, 0) or a later live event (`RecoveryLaws.RunNeverRepeatsExactly`).
- Expanding two texts joined is expanding them apart exactly when no reference begins in the first and ends in the second.
- The replay stops as complete when the run status is over, even if a page limit left events of the log unread; the log is complete exactly when the limit was enough (`RecoveryLaws.CompletedEarlyExactly`).

## Model

| member | source | states |
|---|---|---|
| Identity.EventIdRoundTrip | pkg/runtime/eventbus/eventbus.go:264-266 | reading the two decimal fields of an eventId from the right gives back runId, seq and subIndex, whatever the runId contains |
| Identity.IdempotencyKeyRoundTrip | pkg/runtime/eventbus/eventbus.go:270-272 | the same for the idempotency key |
| Identity.IdsAreInjective | pkg/runtime/eventbus/eventbus.go:260-272 | two events share an eventId exactly when they share runId, seq and subIndex; the idempotency key separates them equally well |
| Identity.IdentityAcceptedExactly | pkg/runtime/eventbus/eventbus.go:385-428 | the identity part of validation accepts exactly the well-formed run ids with seq at least 1, a subIndex below 10,000,000,000, the eventId evt_run_seq_sub and the key run:seq:sub; every other pattern and length bound is redundant |
| Identity.ValidEventIdDeterminesRun | pkg/runtime/eventbus/eventbus.go:385-428 | the eventId of a validated envelope determines its runId |
| Identity.ValidEventIdDeterminesEvent | pkg/runtime/eventbus/eventbus.go:385-428 | among validated envelopes equal eventIds mean equal run, seq, subIndex and idempotency key |
| Identity.RunIdExactly | pkg/runtime/eventbus/eventbus.go:177 | the run id pattern accepts exactly run_ followed by 1 to 64 letters, digits, underscores and hyphens |
| Identity.EventIdExactly | pkg/runtime/eventbus/eventbus.go:176 | the event id pattern accepts exactly evt_, a head of 1 to 80 such characters, 1 to 19 digits and 1 to 10 digits, joined by underscores, in some way of cutting the text |
| Identity.IdempotencyKeyExactly | pkg/runtime/eventbus/eventbus.go:181 | the same for the idempotency key, joined by colons |
| Identity.DecimalDigits | pkg/runtime/eventbus/eventbus.go:264-272 | one more digit at the end of a number is that digit at the end of its text |
| Dispatcher.StepInv | pkg/runtime/eventbus/dispatch.go:75-190 | every atomic step of producers, workers and stop keeps: one owner per mapped queue, distinct workers on distinct runs, work present before a receive, accepted = completed, in flight, queued |
| Dispatcher.SpawnAlwaysSends | pkg/runtime/eventbus/dispatch.go:98-115 | a dispatch that spawns a worker always succeeds in its own send |
| Dispatcher.TrySendExactly | pkg/runtime/eventbus/dispatch.go:81-115 | a dispatched task is refused after stop; otherwise it goes to the end of its run's queue, made if the run has none, unless that already holds the configured number of tasks; the queue has an owner afterwards, the new worker if it had none |
| DispatcherRuns.SerialAndInOrder | pkg/runtime/eventbus/dispatch.go:75-177 | in every run of the dispatcher at most one worker is inside a handler call of a runId; until stop what was accepted is completed, then the task in progress, then the queue; after stop the first two are a prefix |
| DispatcherRuns.NothingStranded | pkg/runtime/eventbus/dispatch.go:88-167 | a mapped queue has exactly one owner, every worker owns a mapped queue, a worker about to receive has a task, no queue outgrows its bound |
| DispatcherRuns.WorkerStepDecreasesWork | pkg/runtime/eventbus/dispatch.go:135-177 | every step of a worker makes the work left strictly smaller |
| DispatcherRuns.SomeWorkerCanMove | pkg/runtime/eventbus/dispatch.go:135-177 | while a worker exists some worker can move |
| DispatcherRuns.Drains | pkg/runtime/eventbus/dispatch.go:135-177 | once dispatches cease the workers make boundedly many steps, and can make no more exactly when all are gone; then no queue is mapped and, without stop, everything accepted is completed |
| RunDispatchers.RunDispatcher.constructor | pkg/runtime/eventbus/dispatch.go:61-70 | a new dispatcher is the initial state; a configured queue size that is positive is kept, one that is not means 256 |
| RunDispatchers.RunDispatcher.TryDispatch | pkg/runtime/eventbus/dispatch.go:88-115 | the locked region of dispatch makes exactly the dispatch step of the transition system, and spawns exactly when it gave the queue an owner |
| RunDispatchers.RunDispatcher.Receive | pkg/runtime/eventbus/dispatch.go:142-143 | a receive takes the oldest task of the worker's queue |
| RunDispatchers.RunDispatcher.Finish | pkg/runtime/eventbus/dispatch.go:143-145 | the return of a task and the length test after it are the two steps of the transition system |
| RunDispatchers.RunDispatcher.ReleaseIfEmpty | pkg/runtime/eventbus/dispatch.go:156-167 | a drained queue is unmapped and its worker retires; one that filled meanwhile keeps its worker unless stopped; an unmapped queue keeps its tasks and has no owner |
| RunDispatchers.RunDispatcher.Release | pkg/runtime/eventbus/dispatch.go:170-177 | shutdown unmaps the queue and ends the worker |
| RunDispatchers.RunDispatcher.Stop | pkg/runtime/eventbus/dispatch.go:181-189 | stop refuses new dispatches and closes done |
| RunDispatchers.RunDispatcher.Serve | pkg/runtime/eventbus/dispatch.go:135-153 | the worker loop without interference runs the queued tasks in order, completes them and leaves the run unmapped and idle; only done may cut it short |
| Dedupe.CheckInv | pkg/runtime/eventbus/memory.go:358-363 | an event that is not recorded, checked by a delivery alone with it, was never committed |
| Dedupe.MarkInv | pkg/runtime/eventbus/memory.go:365-369 | recording an event keeps recorded events committed and committed events recorded or about to be |
| Dedupe.ExclusionIsNeeded | pkg/runtime/eventbus/memory.go:291-305 | two concurrent deliveries of one event would both pass the check and both succeed: the guard alone is not sound |
| SerialGuard.RunningEventsDiffer | pkg/runtime/eventbus/dispatch.go:135-153 | two workers never run the same event, because an eventId determines its run and a run has one worker |
| SerialGuard.TakeSerial | pkg/runtime/eventbus/memory.go:278-293 | a delivery that begins is alone with its event, which is what the guard needs |
| MemorySafety.StepInv | pkg/runtime/eventbus/memory.go:134-416 | every step of publishers, pump, workers, cancellation, Close and new Consume loops keeps the invariant of bus, dispatcher and guard |
| MemorySafety.AtMostOneSuccessPerEvent | pkg/runtime/eventbus/memory.go:291-369 | in every run of the bus, whatever the interleaving, duplicates, failures, cancellations and successive loops, two successful handler calls of one eventId are the same call |
| MemorySafety.DuplicatesWereHandled | pkg/runtime/eventbus/memory.go:293-299 | a delivery that is about to be acked as a duplicate, and every event taken for completed, had a successful handler call, in every run of the bus |
| MemoryModel.FrontStepExactly | pkg/runtime/eventbus/memory.go:134-289 | only a publication adds to the queue of the bus, at its end; only the pump takes from it, at its head; Close empties it; the pump tries a send again exactly when the run's queue is full and ends when the dispatcher is stopped |
| MemoryModel.ConfiguredBudget | pkg/runtime/eventbus/memory.go:64-69 | in every state of every run the budget is the configured one when that lies in 1..32, 5 when it is not positive, and 32 when it is larger |
| MemoryTrace.ExplainsPush | pkg/runtime/eventbus/memory.go:302-337 | one more delivery adds one block to the log of its run: attempts 1, 2, … up to a success, or all the budget and one dead letter, or nothing for a completed event |
| MemoryRuns.RunTrace | pkg/runtime/eventbus/memory.go:244-401 | while nothing was cancelled or closed, published deliveries of a run are completed, in progress, queued, in the pump's hand and pending, in that order; its log is one block per completed delivery, under the configured budget, plus what the one in progress added; the dead-letter list agrees with the log |
| MemoryRuns.DrainedTrace | pkg/runtime/eventbus/memory.go:244-401 | when everything is worked off the log of each run is one block per published delivery, in publish order; a block has at most as many attempts as were configured (1..32; 5 if not positive, 32 if more) |
| MemoryDrain.WorkFalls | pkg/runtime/eventbus/memory.go:244-401 | while nothing is cancelled or closed every step of the pump, the workers and the hooks makes the work left strictly smaller, retries included |
| MemoryDrain.FullSendChangesNothing | pkg/runtime/eventbus/dispatch.go:103-130 | the one pump step not counted as work, a send to a full queue, leaves the bus as it is |
| MemoryDrain.SomeWorkPossible | pkg/runtime/eventbus/memory.go:244-401 | a consuming bus with anything pending, in the pump's hand or with a worker can take such a step |
| MemoryDrain.BusDrains | pkg/runtime/eventbus/memory.go:244-401 | once publishing ceases a consuming bus takes boundedly many such steps, and can take no more exactly when nothing is pending, in hand or with a worker; then no queue is mapped and the log of each run is one block per published delivery, under the configured budget |
| MemoryMetrics.CountersBalance | pkg/runtime/eventbus/memory.go:291-401 | with no delivery under way consumed = acked + retried + dlq, failures = retried + dlq, returns = acked + dlq (plus cuts after a cancellation only), and the ok series is the number of distinct successful events |
| MemoryMetrics.OkSeriesNeverClamped | pkg/runtime/eventbus/metrics.go:161-164 | at every moment the derived ok value is not clamped and counts at most the successes so far |
| MemoryBuses.AttemptsMakeBlock | pkg/runtime/eventbus/memory.go:302-337 | the delivery loop, uninterrupted, produces attempts 1, 2, … up to the first success, or all of the budget and a dead letter |
| MemoryBuses.DeliveryIsBlock | pkg/runtime/eventbus/memory.go:302-337 | what the delivery loop produces is one block of the trace theorem |
| MemoryBuses.AttemptsFrom | pkg/runtime/eventbus/memory.go:302-337 | whatever befalls the attempts: the handler is called up to the first that does not fail uncut, or up to the last; each call is logged with its number and outcome; a dead letter follows exactly when the last one failed uncancelled; each call is consumed, each failure counted and, with budget left and no cancellation, retried; the end is one ack, one dead letter or one cut |
| MemoryBuses.DedupKeyInjective | pkg/runtime/eventbus/memory.go:356 | the key of the seen map separates exactly the eventIds |
| MemoryBuses.MemoryBus.constructor | pkg/runtime/eventbus/memory.go:64-69 | a new bus is empty with all counters at zero; its attempt bound is the configured one from 1 to 32, 32 if more, 5 if not positive |
| MemoryBuses.MemoryBus.DuplicateCopies | pkg/runtime/eventbus/memory.go:165-186 | the number of deliveries is the injector's first refusal among 1..64, an error exactly when it never refuses; a fixed number is refused below 0 and above 64, and otherwise makes one delivery more |
| MemoryBuses.MemoryBus.Publish | pkg/runtime/eventbus/memory.go:134-163 | a publication is queued exactly when the gate accepts it, the context lives, the bus is open and its number of copies is defined; then exactly that many copies join the end of the queue; otherwise nothing is queued; one hook fires either way |
| MemoryBuses.MemoryBus.Pop | pkg/runtime/eventbus/memory.go:246-258 | the pump takes the head of the FIFO, and nothing from a closed bus |
| MemoryBuses.MemoryBus.Close | pkg/runtime/eventbus/memory.go:404-416 | the first Close drops what is pending, a later one changes nothing |
| MemoryBuses.MemoryBus.Nack | pkg/runtime/eventbus/memory.go:385-401 | a retry hook while budget remains, else one dead letter and its hook and no retry |
| MemoryBuses.MemoryBus.Deliver | pkg/runtime/eventbus/memory.go:291-338 | a known event is acked untouched, counted as consumed, duplicate and acked; otherwise the log grows by exactly the attempts that the handler's outcomes lead to, the event becomes known under its key exactly on a success, a dead letter with the event, run and attempt is written exactly at a spent budget, and every counter moves as those attempts say |
| MemoryDelivery.DeliverIsRun | pkg/runtime/eventbus/memory.go:291-338 | what Deliver does at once, a worker of the transition system left alone, but for the cancellations its fate speaks of, does in its own steps: the same log of the run, completed events, dead letters and counters, and nothing else changes |
| MemoryDelivery.KeysAreEvents | pkg/runtime/eventbus/memory.go:356-369 | the keys in the object's seen map are those of the completed events, and recording an event means the same in both |
| MetricsHooks.HookCounters.OnPublish | pkg/runtime/eventbus/metrics.go:90-99 | an accepted publication moves the published counter only; a refused one the failures of publishing and the total |
| MetricsHooks.HookCounters.OnConsume | pkg/runtime/eventbus/metrics.go:100-109 | every outcome is consumed; a duplicate counts as one, a failure and an error each in their series and in the total; the bus model counts the same |
| MetricsHooks.HookCounters.OnAck | pkg/runtime/eventbus/metrics.go:110-117 | an ok ack moves the acked counter only; another one the failures of acking and the total, and not acked |
| MetricsHooks.HookCounters.DerivedOk | pkg/runtime/eventbus/metrics.go:161-164 | on any state the hooks can produce the clamp at zero does not act |
| RedisSafety.StepInv | pkg/runtime/eventbus/redis.go:498-781 | every step of read loop, reclaim pass, workers, server, cancellation, Close under a live context, restart and crash keeps the consumer's invariant |
| RedisSafety.NeverAckedSilently | pkg/runtime/eventbus/redis.go:566-781 | in every run, with lost replies, failed writes and crashes, an entry is undelivered, pending or acked, and acked only with its event's effect committed or its dead-letter row written |
| RedisSafety.AtMostOneSuccessPerLifetime | pkg/runtime/eventbus/redis.go:679-712 | while one process lives the handler succeeds at most once per event, and what it takes for processed has had its effect |
| RedisModel.ServerStepExactly | pkg/runtime/eventbus/redis.go:498-781 | what one step does to each entry on the server: it becomes pending by being read, with one delivery; each claim of it adds one; only an ack that took effect ends it; only a row that took effect adds one |
| RedisModel.HandedOutExactly | pkg/runtime/eventbus/redis.go:533-606 | a read hands out the next entries with attempt 1; a claim hands out what it claimed with the scanned deliveries plus one, and at least 2; a lost reply hands out nothing |
| RedisModel.BatchStepExactly | pkg/runtime/eventbus/redis.go:599-676 | the head of a batch is acked once its row is known to be written, tried again while its run's queue is full, and otherwise left behind; a failure past the budget drops the batch |
| RedisModel.ConfiguredLimits | pkg/runtime/eventbus/redis.go:223-231 | in every state of every run the budget is the configured one from 1 to 32, 32 if more and 5 if not positive, and the batch size the configured positive one or 100 |
| RedisSafety.MemoryStepExactly | pkg/runtime/eventbus/redis.go:679-712 | an event is remembered exactly when its success is recorded and forgotten in a crash; only a successful call has an effect |
| RedisBudget.ScanCompleteExactly | pkg/runtime/eventbus/redis.go:570-576 | a scan limited to Count lists every pending entry exactly when the pending list is not longer |
| RedisBudget.ScanListsFirst | pkg/runtime/eventbus/redis.go:570-582 | a scan lists as many pending entries as Count allows, with their delivery counts, and none that comes after one it leaves out |
| RedisBudget.ClaimAttemptRightExactly | pkg/runtime/eventbus/redis.go:580-606 | the attempt derived for a claimed entry is its next delivery exactly when the scan listed it or it had been delivered once |
| RedisRuns.NotYetCalled | pkg/runtime/eventbus/redis.go:679-690 | a delivery about to reach the handler has an entry and attempt that never reached it before |
| RedisRuns.StepBudget | pkg/runtime/eventbus/redis.go:498-781 | every step other than a blind claim keeps the retry budget; a claim is blind when it hands out an entry that the scan missed and that was delivered more than once |
| RedisRetries.AttemptsRightExactly | pkg/runtime/eventbus/redis.go:580-606 | in every run each attempt handed out is its entry's new delivery count exactly when no claim of the run is blind |
| RedisRetries.BlindExactly | pkg/runtime/eventbus/redis.go:570-606 | the history flag of a run is set exactly when one of its claims was blind |
| RedisRetries.CompleteScansNeverBlind | pkg/runtime/eventbus/redis.go:570-606 | no claim is blind in a run at whose scans the pending list is never longer than Count |
| RedisRetries.RetryBudget | pkg/runtime/eventbus/redis.go:580-621 | in every run without a blind claim the attempts given to an entry rise strictly from at least 1, each reaches the handler at most once, and the handler runs for an entry at most as often as was configured (1..32; 5 if not positive, 32 if more) |
| RedisRetries.RetryBudgetWithinCount | pkg/runtime/eventbus/redis.go:570-621 | so the configured retry budget holds in every run at whose scans the pending list is never longer than Count |
| RedisRetries.NeverCalledPastBudget | pkg/runtime/eventbus/redis.go:607-621 | in every run at all the handler never sees an attempt past the configured budget; such a claim can only be dead-lettered |
| RedisClock.TimedIsRun | pkg/runtime/eventbus/redis.go:566-621 | a run in time, whose claims take the first entries idle for ClaimMinIdle, up to Count, is a run of the transition system |
| RedisClock.TimedStepExactly | pkg/runtime/eventbus/redis.go:586-593 | in a run in time each delivery of an entry is noted; a claim takes only pending entries whose last delivery is five seconds old or more, and leaves one of those out only if it has taken Count of them, all before it |
| RedisClock.BlindClaimsNeverEnd | pkg/runtime/eventbus/redis.go:566-621 | for every n there is a run in time, with Count 1, the default periods and budget 5, in which the handler is called for one entry with attempt 1 once and with attempt 2 n times |
| RedisClock.BudgetExceeded | pkg/runtime/eventbus/redis.go:580-621 | so with blind claims no bound on the handler calls for an entry holds |
| RedisRows.UnwritableStaysPending | pkg/runtime/eventbus/redis.go:787-812 | in every run an entry whose row its validation refuses, once delivered, is pending for ever: it is never acked and never gets a row |
| RedisRows.OffsetEntryStaysPending | pkg/runtime/eventbus/redis.go:787-812 | so in every run an entry that does not decode, and whose timestamp parses without being in UTC form, is never acked |
| RedisRows.AckedInSomeRunExactly | pkg/runtime/eventbus/redis.go:758-812 | an entry that does not decode can be acked in some run exactly when it has no such timestamp |
| RedisRows.UnwritableBreaksBatch | pkg/runtime/eventbus/redis.go:599-612 | in every run, when an entry with a refused row heads what is left of a claimed batch with an attempt past the budget, the only step of the batch breaks it off: nothing behind it is sent, acked or dead-lettered |
| RedisConsumers.RedisConsumer.constructor | pkg/runtime/eventbus/redis.go:401-410 | a process starts with an empty memory on the server as it is |
| RedisConsumers.RedisConsumer.Ack | pkg/runtime/eventbus/redis.go:714-722 | an ack of a settled entry removes it from the pending list exactly if the command took effect, leaves everything else, reports what the client saw, and keeps that nothing is acked silently |
| RedisConsumers.RedisConsumer.DropToDlq | pkg/runtime/eventbus/redis.go:746-781 | the row first, and the ack only once the row is known to be written: which of the two took effect is in the contents of the rows, the pending list and the acked entries |
| RedisConsumers.RedisConsumer.Nack | pkg/runtime/eventbus/redis.go:727-743 | a failure within the budget leaves the server alone; a spent budget dead-letters |
| RedisConsumers.RedisConsumer.Deliver | pkg/runtime/eventbus/redis.go:679-711 | the handler is called exactly for unknown events and a success is remembered; the entry leaves the pending list exactly when the ack of a known or successful event took effect, or the ack after the row of an uncancelled failure with the budget spent; a row is added exactly by such a failure whose row took effect; nothing else changes |
| RedisDelivery.DeliverIsRun | pkg/runtime/eventbus/redis.go:679-743 | what Deliver does at once is a run of one worker of the transition system, action by action, with the replies that Deliver was given; it has the same pending list, acked entries, rows, remembered events, effects and calls |
| RedisConsumers.RedisConsumer.ClaimOnce | pkg/runtime/eventbus/redis.go:566-622 | the reclaim pass is scan, claim, and entry by entry a dead letter or a hand-over that a closed dispatcher may refuse; an empty answer ends it without error, and only an error while dead-lettering past the budget breaks it off |
| RedisConsumers.ReclaimExactly | pkg/runtime/eventbus/redis.go:599-676 | the fate of each claimed entry, pass broken off or not: one that the pass reaches is dead-lettered exactly when it is past the budget or does not decode, and handed over exactly when it is neither and the dispatcher takes it; one that it does not reach is left as it is |
| RedisConsumers.BreaksOffExactly | pkg/runtime/eventbus/redis.go:607-617 | the pass breaks off exactly when some entry past the budget is not known to be dead-lettered |
| RedisConsumers.ReclaimSortsOut | pkg/runtime/eventbus/redis.go:599-621 | only decodable entries within the budget are handed over, with their derived attempt; a pass that did not break off handed over all of those that the dispatcher takes, and everything past the budget has its row and is not pending |
| RedisConsumers.UnwrittenRowBreaksPass | pkg/runtime/eventbus/redis.go:599-621 | an entry past the budget whose row is not written breaks the pass off at itself: no later entry is handed over, and their delivery counts stay raised |
| DeadLetters.PartialRowAcceptedExactly | pkg/runtime/eventbus/redis.go:787-800 | for any attempt count, error class, keys and frame the row is accepted by its validation exactly when the frame has no timestamp that parses without being in UTC form |
| DeadLetters.WritableExactly | pkg/runtime/eventbus/redis.go:956-984 | a frame's row is accepted under every key, count, class and time exactly when its timestamp fits, and otherwise refused under every one |
| DeadLetters.OffsetTimestampRefused | pkg/runtime/eventbus/redis.go:980-982 | every timestamp that parses and does not end in Z, such as one with an offset, makes a row that cannot be written |
| DeadLetters.MessageRowAccepted | pkg/runtime/eventbus/eventbus.go:660-735 | the row of a validated message is always accepted and has its identity, type, time, consumer key, class, attempts, stream key and entry id as given |
| DeadLetters.PartialRowIsHonest | pkg/runtime/eventbus/redis.go:956-984 | each identity field of a row is the frame's own or empty, and kept exactly when it satisfies its pattern; the first sighting is the frame's time if that parses, else the time of writing |
| DeadLetters.NewRowExactly | pkg/runtime/eventbus/eventbus.go:660-697 | every row: the class is the given one exactly when it is one of the ten, else unknown; stream key and entry id are the given ones or empty, kept exactly when they have their form; consumer key and last sighting are the given ones, the first is the frame's time or else the last; a count below 1 becomes 1, above 32 becomes 32 |
| DeadLetters.UtcExactly | pkg/runtime/eventbus/eventbus.go:182 | the timestamp pattern accepts exactly the texts of a date, T, a time, an optional point with 1 to 9 digits, and Z |
| DeadLetters.StreamKeyExactly | pkg/runtime/eventbus/eventbus.go:184 | the stream key pattern accepts exactly agenthub:, 1 to 32 small letters, digits, underscores and hyphens, and :run:events |
| DeadLetters.StreamEntryExactly | pkg/runtime/eventbus/eventbus.go:185 | the entry id pattern accepts exactly 1 to 19 digits, a hyphen and 1 to 10 digits |
| Context.Find | pkg/runtime/harness/context.go:127-143 | finds the first call, or the first result, with an id, or reports exactly when there is none |
| Context.SelectedChars | pkg/runtime/harness/context.go:145-153 | sums the text of the selected items |
| Context.CharsConcat | pkg/runtime/harness/context.go:145-153 | the sum counts each selected item with the length of its text and every other one with nothing |
| Context.Mark | pkg/runtime/harness/context.go:44-58 | selects exactly the pinned and system items, the first KeepFirst and the last KeepLast |
| Context.ClaimCalls | pkg/runtime/harness/context.go:62-76 | drops exactly the orphan results and brings in the first call of each selected result |
| Context.AnswerCalls | pkg/runtime/harness/context.go:77-83 | brings in the first result of each selected call |
| Context.ClaimedExactly | pkg/runtime/harness/context.go:62-76 | a result stays selected exactly if some item is its call; any other item also becomes selected by being the first call of a selected result |
| Context.AnsweredExactly | pkg/runtime/harness/context.go:77-83 | an item becomes selected exactly by being the first result of a selected call |
| Context.CompanionExactly | pkg/runtime/harness/context.go:92-101 | the item dropped along with another is the first other half of its pair, unless that is pinned or a system item |
| Context.TrimPass | pkg/runtime/harness/context.go:88-109 | one pass drops oldest first, companions included, and its running total is the recomputed sum |
| Context.Trim | pkg/runtime/harness/context.go:85-113 | the trim loop terminates, and its running total is the recomputed sum |
| Context.BuildContext | pkg/runtime/harness/context.go:36-125 | the whole procedure over the array is the composition of its passes |
| ContextLaws.BuildFailsExactly | pkg/runtime/harness/context.go:36-116 | bad limits are rejected exactly; a context is too large exactly when the protected items that are not orphan results alone exceed MaxChars |
| ContextLaws.OutputIsBoundedSubsequence | pkg/runtime/harness/context.go:118-124 | the output is an order-preserving part of the items with every required item, no orphan result, and at most MaxChars of text |
| ContextLaws.WindowClosed | pkg/runtime/harness/context.go:62-83 | with unique ids the window has both halves of a pair or neither: both exactly when one is marked |
| ContextLaws.FittingOutputExactly | pkg/runtime/harness/context.go:44-124 | with unique ids, when all items fit, exactly the pinned and system items, the first KeepFirst, the last KeepLast and the partners of those are returned, orphan results aside |
| ContextLaws.TrimmingIsOldestFirst | pkg/runtime/harness/context.go:85-113 | with unique ids there is a least k such that exactly the protected items of the window and those from k on whose companion is not before k survive; any smaller k would exceed MaxChars |
| ContextLaws.PairsStayWholeExactly | pkg/runtime/harness/context.go:89-107 | with unique ids, and text in every half, pairs stay whole under all limits exactly when both halves of each are protected alike |
| ContextLaws.UniformPairStays | pkg/runtime/harness/context.go:89-107 | the halves of a pair that are protected alike share their fate under any limits |
| ContextLaws.RebuildUnchangedExactly | pkg/runtime/harness/context.go:36-125 | with unique ids building a built context again returns it unchanged exactly when it holds no result without its call |
| ContextLaws.IdempotentExactly | pkg/runtime/harness/context.go:36-125 | with unique ids, and text in every half, building twice is building once under all limits exactly when no protected result has an unprotected call |
| ContextLaws.UniformPairsIdempotent | pkg/runtime/harness/context.go:36-125 | with unique ids and pairs protected alike building is idempotent |
| ContextLaws.RepeatedResultIsOrphaned | pkg/runtime/harness/context.go:92-107 | a concrete case why the ids must be unique: of two unprotected results for one call the second is kept without its call |
| Fences.ParseCodeBlocks | agents/code-agent/handler.go:133-180 | the line loop computes the parse |
| Fences.IsDocument | agents/code-agent/handler.go:133-180 | every text is noise lines, closed fences and possibly one unclosed fence at the end |
| Fences.DocumentParses | agents/code-agent/handler.go:133-180 | such a text parses to the blocks of its closed fences, in order, and nothing else |
| Fences.OpeningExactly | agents/code-agent/handler.go:187-225 | a line opens a fence for a language and a file exactly when, trimmed, it is three backticks and a header whose trimmed part before the first colon is the language, made of the allowed characters, and whose trimmed rest is the filename |
| Fences.PieceExactly | agents/code-agent/handler.go:133-229 | noise is a line that opens no fence; a fence is a line that opens one, lines that are not three backticks once trimmed, and one that is |
| Fences.FenceGivesBlock | agents/code-agent/handler.go:154-168 | the block of a fence has its language, its filename or else untitled with the extension of the language, and its body joined and trimmed on both sides |
| Fences.ExtensionsExactly | agents/code-agent/handler.go:231-243 | the extension is that of the table of languages, or the language itself outside it |
| FencePrinting.ParseCanonical | agents/code-agent/handler.go:154-168 | every parsed block has a valid language, a trimmed non-empty filename and trimmed code without a closing line |
| FencePrinting.PrintedBlocksParse | agents/code-agent/handler.go:187-229 | blocks of that kind, printed, parse back to themselves |
| FencePrinting.ParsePrintParse | agents/code-agent/handler.go:133-243 | for every text, printing its blocks and parsing again gives the same blocks |
| FencePrinting.ParsedListsExactly | agents/code-agent/handler.go:133-243 | the block lists that some text parses to are exactly those of such blocks |
| Expand.IsValidEnvName | pkg/runtime/config/expand.go:47-60 | accepts exactly the names of a letter or underscore followed by letters, digits and underscores |
| Expand.FindBrace | pkg/runtime/config/expand.go:24-27 | finds the first closing brace |
| Expand.ExpandAt | pkg/runtime/config/expand.go:22-43 | one round of the scan writes the rendering of one token and goes on after it |
| Expand.ExpandEnvVars | pkg/runtime/config/expand.go:11-45 | the scan computes the one-pass rendering of the tokens, so substituted values are never scanned; without a lookup the input is copied |
| Expand.RefLength | pkg/runtime/config/expand.go:23-30 | finds a reference exactly when the text begins with one |
| ExpandLaws.TokensExactly | pkg/runtime/config/expand.go:21-44 | the tokens of a text are exactly those that print to it, with proper names and no literal where a reference begins |
| ExpandLaws.ExpandsReference | pkg/runtime/config/expand.go:23-40 | a dollar sign and a valid name in braces give the value of the variable, or stay if it has none, and the text after them is expanded on its own |
| ExpandLaws.CopiesOtherwise | pkg/runtime/config/expand.go:41-43 | a character at which no such reference begins is copied |
| ExpandLaws.UnsetVariablesStay | pkg/runtime/config/expand.go:34-36 | a text none of whose variables is set stays as it is |
| ExpandLaws.ExpandAfterBrace | pkg/runtime/config/expand.go:11-45 | expanding texts apart and joining is expanding them joined when the first ends in a closing brace |
| ExpandLaws.ExpandConcatExactly | pkg/runtime/config/expand.go:11-45 | whatever the lookup, the two agree exactly when no reference begins in the first text and ends in the second |
| EventStream.IndexOfBreak | frontend/src/agui/client.ts:220 | finds the first blank line from an offset on |
| EventStream.SplitBlocks | frontend/src/agui/client.ts:215-232 | the splitting loop computes the leftmost splitting |
| EventStream.ReadLoop | frontend/src/agui/client.ts:134-151 | the read loop emits, chunk by chunk, what buffering, normalizing and splitting give |
| EventStreamLaws.SplitExactly | frontend/src/agui/client.ts:215-232 | the splitting is exactly the one leftmost way to write a text as blocks ended by blank lines and a rest without one |
| EventStreamLaws.NormalizeAgain | frontend/src/agui/client.ts:147-148 | normalizing what was normalized with more text appended is normalizing once, for texts without CR CR LF |
| EventStreamLaws.ChunksDoNotMatter | frontend/src/agui/client.ts:137-151 | for any chunks of a text without CR CR LF the loop emits the blocks of the normalized whole and keeps its rest |
| EventStreamLaws.ChunksDoNotMatterExactly | frontend/src/agui/client.ts:137-151 | for a text that ends at a blank line every chunking gives the blocks of the whole exactly when it has no CR CR LF |
| EventStreamCuts.CutsAgreeExactly | frontend/src/agui/client.ts:137-151 | for every text all chunkings give the blocks of the whole exactly when dropping every CR in front of an LF leaves the same blocks |
| Recovery.LiveCursor.constructor | frontend/src/agui/client.ts:117-119 | a stream starts without a run, at (0, 0) |
| Recovery.LiveCursor.OnEvent | frontend/src/agui/client.ts:165-178 | an event naming another run makes it current and restarts the cursor at (0, 0); a sequenced event that comes later than the cursor becomes it, a missing subIndex counting as 0; any other leaves it |
| Recovery.LiveCursor.OnEvents | frontend/src/agui/client.ts:151-186 | the cursor after a stream is the fold of its events |
| Recovery.DeliverPage | frontend/src/agui/client.ts:285-294 | the loop over a page hands on exactly the events past the moving cursor and sees a terminal event exactly when it hands one on |
| Recovery.RecoverRun | frontend/src/agui/client.ts:265-314 | the attempts loop uses the replies up to the first that has no page, hands on RUN_FINISHED or RUN_ERROR, loses its status, or has status completed, failed, cancelled, awaiting_approval or awaiting_input, with the outcome of that reply; it times out, all replies used, exactly when there is none; events handed on and cursor are those of the replies used |
| Recovery.ReplayExactly | frontend/src/agui/client.ts:265-314 | the same for the replay as a function |
| Recovery.FreshExactly | frontend/src/agui/client.ts:285-292 | one more event of a page is handed on exactly when it has no seq or comes after the cursor asked from and after all sequenced events before it in the page; then it becomes the cursor |
| RecoveryLaws.ReplayRises | frontend/src/agui/client.ts:285-292 | whatever pages the server returns, replayed events that carry a seq rise strictly in (seq, subIndex), all past the starting cursor |
| RecoveryLaws.LiveCursorIsGreatest | frontend/src/agui/client.ts:165-178 | after any live stream the cursor is for the run named last and is the greatest of (0, 0) and the positions since that run became current |
| RecoveryLaws.NothingLiveRepeatsExactly | frontend/src/agui/client.ts:197-292 | for any live stream and any of its sequenced events: whatever the server answers nothing at or before its position is replayed, exactly when the event is at most (0, 0) or an event since the last change of run |
| RecoveryLaws.RunNeverRepeatsExactly | frontend/src/agui/client.ts:165-200 | no event of the final run delivered live can be repeated exactly when each of them from before the last change of run is at most (0, 0) or such an event |
| RecoveryLaws.RunLeftAndEnteredRepeats | frontend/src/agui/client.ts:165-169 | a stream that leaves a run and enters it again with an event without seq: its first event is delivered a second time |
| RecoveryLaws.StretchDelivers | frontend/src/agui/client.ts:285-292 | a page that is a stretch of the log and leaves no gap adds exactly what it has beyond what was delivered |
| RecoveryLaws.LiveThenReplayIsLog | frontend/src/agui/client.ts:197-314 | if live delivery was a non-empty prefix of the log and every page is such a stretch, live and replay are exactly the log as far as it was read; after an empty prefix nothing is replayed |
| RecoveryLaws.CompletedEarlyExactly | frontend/src/agui/client.ts:284-305 | a run found over after a page without a terminal event counts as complete, with the whole log delivered exactly when the page limit was enough |
| PairedCalls.HasToolResultAfter | pkg/runtime/pruning/pruner.go:193-213 | finds whether a later tool message holds a result for a call |
| PairedCalls.EnsurePairedFunctionCalls | pkg/runtime/pruning/pruner.go:137-177 | the loop computes the pairing of the cloned contents |
| PairedCallsLaws.AddedExactly | pkg/runtime/pruning/pruner.go:152-173 | a message gets an added result for an id exactly when it is the assistant's, has a call with that id, and no result for it follows |
| PairedCallsLaws.PairedFront | pkg/runtime/pruning/pruner.go:146-173 | right after each content of the assistant follows one tool message with an error result for each of its unanswered calls, in their order, with the call's id and name and the text for a pruned result; after any other content, and where no call is unanswered, nothing |
| PairedCallsLaws.CloneExactly | pkg/runtime/pruning/pruner.go:248-312 | cloning keeps nils, roles, and the parts in order; a pointer becomes the value it points to, a nil pointer the zero value of its type, a part of another type stays |
| PairedCallsLaws.PairedAnswersAll | pkg/runtime/pruning/pruner.go:137-177 | in the output every call of the assistant has a result after it |
| PairedCallsLaws.PairedUnchangedExactly | pkg/runtime/pruning/pruner.go:137-177 | contents stay as they are exactly when every call is answered |
| PairedCallsLaws.EnsuredOnceIsEnough | pkg/runtime/pruning/pruner.go:137-313 | the output of the whole function answers every call, and a second application is a no-op |
| PairedCallsLaws.RemovingAddedGivesInput | pkg/runtime/pruning/pruner.go:146-173 | without the added messages the output is the input, and the added ones are tool messages of error results |

## Left out

- Real Redis behaviour beyond its commands: stream trimming by MAXLEN, stream expiry, entry ids as text (positions in the stream stand for them), and a group that starts after existing entries. Idle time is part of `RedisClock` only; in the other theorems what a claim returns is a free choice. There a claim takes the first idle entries up to Count, while the command examines at most ten times Count entries and may return fewer.
- Several Redis consumers at once: the budget theorems are about one consumer whose scan and claim are not interleaved with another's; the no-silent-ack theorem rests on the server rules alone but is also stated for one process at a time.
- RedisRetries.RetryBudget: stated for runs without a blind claim, because it is false otherwise, as RedisClock.BudgetExceeded shows; a single blind claim may still leave the number of calls within the budget.
- RedisSafety.AtMostOneSuccessPerLifetime: says nothing across a crash or restart, because the process-local memory of processed events is lost then.
- Order within a run on the Redis transport: retries go through the pending list and may overtake, so no order is claimed.
- Termination of Close on the Redis consumer: the reclaim loop watches only its context.
- Counter identities for the Redis consumer: its success path fires no consume hook.
- RunDispatchers.RunDispatcher.Stop: the wait for the workers is not part of the method; that they end is DispatcherRuns.Drains.
- MemoryBuses.MemoryBus.Close: stopping the dispatcher and waiting for the Consume loop are not part of the method; in the transition system they are the steps after Close.
- MemoryDelivery.DeliverIsRun: stated for a delivery that begins under a live context; under a cancelled one a first failure ends it, as the fate of a failure with cancellation does.
- MemoryDrain.BusDrains: no fairness is assumed, so the theorem bounds and characterises the working steps and does not say when they are taken.
- The option that switches duplicate suppression off.
- MemoryRuns.RunTrace: stated while nothing was cancelled or closed, because a popped or queued delivery may be dropped after that by design; MemorySafety.AtMostOneSuccessPerEvent spans cancellation and Close.
- The seen map of the bus state machines is keyed by eventId; that the real key, which also has the consumer key, separates the same events is MemoryBuses.DedupKeyInjective.
- RunDispatchers.RunDispatcher.TryDispatch: queue objects are rows of a map keyed by identity, so aliasing of the pointer held by a worker is by identity and not by reference; waiting between two tries of a full queue is not timed.
- MetricsHooks.HookCounters.DerivedOk: the metrics endpoint reads its three counters one after the other while hooks may fire between the reads; the contract is about one state.
- JSON encoding and decoding, regular expression engines, time parsing and formatting, and secret redaction: decodable frames, patterns and parsed timestamps are predicates or written-out character rules.
- DeadLetters.PartialRowAcceptedExactly: RFC 3339 parsing is a parameter, so which offset forms parse is not modelled.
- The other checks of Envelope.Validate (schema version, conversation, task and trace ids, payload rules and sizes).
- UTF-8 that does not decode: texts of the fence parser and of the client are sequences of characters.
- Fences.ParseCodeBlocks: line splitting, trimming and joining are functions of the Text module and not modelled as loops of their own.
- ContextLaws.PairsStayWholeExactly: this and the other pair laws assume unique call ids, since the selector only ever looks at the first call and the first result of an id; ContextLaws.RepeatedResultIsOrphaned shows what happens otherwise.
- EventStream.ReadLoop: text decoding, event parsing and JSON are outside; the buffer left at the end of the stream is never split, as in the source.
- Saving the cursor in browser storage, the delay between attempts, and callbacks that throw.
- The identity of cloned parts in memory: PairedCalls models values, so that the output shares nothing with the input is not captured.
- The window pruners, the tool-result truncator, run budgets, the run state table, the agent runner, HTTP servers, providers, gateway start-up and the user interface: simple windows, counters and tables, or code dominated by calls to the outside.
