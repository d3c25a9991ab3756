# TokenLedger: a verified model of the metering path

TokenLedger is a gateway for LLM providers that meters every request. This project models how a request becomes
money in a rollup table, and the stateful cores around that path, and proves what they guarantee over every input,
every interleaving or every run.

- **Metering.** `Finalizer` prices a request once and emits at most one event. `Sink` is the gateway's bounded retry
  buffer; each of its steps is shown to be one move of the small `Gateway` that the rest relies on. `Pipeline` is the
  whole path as a step system: gateway, stream, consumer group, any number of workers, transaction, retention, with
  failures, crashes, lost streams and a group recreated from the start of the stream. `Consumer` and `Ledger` are the
  worker's loop and transaction in imperative form, proved to perform exactly those steps. `Rollups` and `LedgerLaws`
  treat tables as sums; `Exactness` draws the conclusions for every reachable state, and `LastUsed` those for the
  virtual keys' lastUsedAt; `Reconcile` says what the daily
  drift report can and cannot mean, with `Doubles` for its comparison; `Runs` holds concrete runs that reach the states
  in which a promise fails.
- **Money.** `Money` relates the two decimal codecs, `Calculator` the price calculation, `Matcher` the choice of price.
- **Streaming.** `FrameTap` re-frames chunks; `Anthropic` and `OpenAi` read the frames, the former also translating them.
- **Caches and limits over time.** `KeyCache` is the two-tier key cache of any number of gateways, `RateLimit` the
  fixed-window limiter.
- **Sessions, export, ids.** `Sessions` covers refresh-token families with each handler atomic, `RefreshSteps` the same
  handlers cut at their awaits, `Csv` and `Export` the CSV export, `Uuid` the
  UUIDv7 layout.

A step system has a total function `Step` (a step that is not enabled changes nothing) and `Run` over any list of
actions. A class whose methods the program interleaves at its awaits has one method per stretch of code between two
awaits, each proved equal to the step. Costs are integers: 1e-8 USD for events, 1e-6 USD in rollup rows.

## Where the code and its promises part

Each of these has the exact condition under which the promise holds and a concrete failing input or run.

- Redeliveries "can never double-count" (apps/worker/src/ingest/persist.ts:9) fails when both copies of a retried
  publish share a batch (`Runs.TwinsAreCountedTwice`), and when the group is recreated from the start of a stream that
  still holds events past their retention (`Runs.PurgedEventsAreCountedAgain`). These two are the only ways
  (`Exactness.ExactIffCareful`).
- A batch whose worker failed stays pending (`Runs.FailedBatchIsAbandoned`); its entries are delivered again if and only
  if the group is lost (`Pipeline.RetriedIffGroupIsLost`).
- Reconcile reports a correctly counted day (of up to 16 million USD) if rounding its increments has moved its cost by
  more than 1e-6 USD and does not if by less (`Reconcile.DriftsIffRoundingShows`); at exactly 1e-6 USD the doubles can go
  either way (`Reconcile.BoundaryGoesEitherWay`). Three events of 5e-7 USD have their day reported
  (`Runs.HalvesAreReportedFromTheThirdOn`), and so have two of 0.50000050 USD (`Runs.TwoHalvesCanBeReported`).
- A revocation takes effect within 5 s (apps/gateway/src/stores/cached.ts:18) if and only if no inner read straddles the
  Redis delete (`KeyCache.DeleteTakesEffectIffNothingStraddles`), which one can (`KeyCache.StraddlingIsReached`);
  otherwise the bound is 65 s and the write delay.
- Streamed usage is parseUsage of the message if and only if message_delta adds nothing to the cache counts of
  message_start (`Anthropic.StreamedUsageIsParsedUsage`, `Anthropic.LateCacheCountIsDropped`).
- The streamed translation spells the text of the buffered one if and only if no content block starts with text
  (`Anthropic.InitialTextIsDropped`), and finishes once, with the buffered reason, if and only if there is one
  message_delta (`Anthropic.TwoDeltasFinishTwice`); `Anthropic.StreamedTranslationIsBuffered` is both conditions.
- Rotation keeps its promises over every interleaving if and only if no refresh creates its session after another write
  to the family came after its read (`RefreshSteps.RotationHoldsIffOrderly`). Two refreshes of one token, or a refresh
  and a logout, break it (`RefreshSteps.InterleavedRefreshesForkTheFamily`, `RefreshSteps.InterleavedRevokeIsUndone`).
- An export job is DONE or FAILED if and only if the DONE or the FAILED update of some attempt took effect, whether or
  not its call returned (`Export.TerminalIffSomeAttemptEnds`). An outage leaves it RUNNING for good
  (`Export.OutageLeavesItRunning`), and a DONE update whose reply is lost leaves a FAILED row that announces a finished
  file (`Export.LostReplyFailsAFinishedJob`).
- The in-process limiter lets through what the reference denies if and only if the checks since its map was last cleared
  are below the limit and all checks of the window are not (`RateLimit.MemoryDecidesRight`). Clearing takes more than
  10,000 keys, and those suffice (`RateLimit.FewKeysNeverClear`, `RateLimit.ClearingForgets`).
- `formatScaled` at scale 0 and `formatPicoUsd` below zero print text that `parseDecimalScaled` rejects
  (`Money.ParseFormat`, `Money.NegativePicoUnreadable`).

## Model

| member | source | states |
|---|---|---|
| Finalizer.EventFinalizer.Finalize | apps/gateway/src/proxy/core.ts:171-239 | A call performs one step at the price that the matching rule chooses for the model the event names, emits at most the event it built, and throws exactly when it is the first call and the cost cannot be calculated |
| Finalizer.OnlyTheFirstCallCounts | apps/gateway/src/proxy/core.ts:151-173 | Any sequence of finalize calls emits what its first call emits: at most one event, and none ever when that call throws |
| Finalizer.ThrowsIffNotChargeable | apps/gateway/src/proxy/core.ts:180-191 | An event is lost to an exception exactly when a price applies, the provider reported no cost, and one of the four counts of the usage cannot be charged at its own price |
| Finalizer.EventSays | apps/gateway/src/proxy/core.ts:195-232 | Every column of the event: fresh id, instant, owner; the status is the override or else OK exactly below 400; the model is the reported, else the requested, else "unknown"; the token columns are the usage's own; the latency is the elapsed time; a cost the provider reported is passed on |
| Finalizer.EmittedCostIsRead | apps/gateway/src/proxy/core.ts:180-193 | The worker reads a calculated cost as the sum of the event's four token columns, each times the price field of its own class, cut to 1e-8 USD, and an unpriced one as zero; UNPRICED and ACTUAL are set exactly under the stated conditions |
| Finalizer.EventIsFiledUnder | apps/gateway/src/proxy/core.ts:195-209 | The rollup row an event will count in is that of its request's instant, owner, provider and model; it counts there as one request, and as an error exactly when it was blocked or answered with 400 or more |
| Sink.InvAlways | apps/gateway/src/sink.ts:22-47 | Under every interleaving: buffer within bound, at most one loop, nothing stranded, the head stays put while in flight, FIFO, and every emitted event is published, in flight, buffered or counted as dropped |
| Sink.DropsOnlyWhenFull | apps/gateway/src/sink.ts:26-30 | An event is dropped and counted exactly when its first publish fails while the buffer is full |
| Sink.LoopGoesOn | apps/gateway/src/sink.ts:36-46 | A loop that wakes up, or whose publish succeeded, publishes the first buffered event, or ends when there is none |
| Sink.SinkRefinesGateway | apps/gateway/src/sink.ts:22-47 | Every step of the sink is one move of the abstract gateway that the pipeline uses |
| Sink.RedisStreamSink.EmitEvent | apps/gateway/src/sink.ts:22-24 | emit performs the Emit step |
| Sink.RedisStreamSink.OnDirectOk | apps/gateway/src/sink.ts:23 | A resolved first publish leaves the event published |
| Sink.RedisStreamSink.OnDirectFailed | apps/gateway/src/sink.ts:22-33 | A rejected first publish buffers the event, or drops and counts it |
| Sink.RedisStreamSink.Buffer | apps/gateway/src/sink.ts:26-33 | bufferEvent performs its step, starting a loop only when none is flushing |
| Sink.RedisStreamSink.StartLoop | apps/gateway/src/sink.ts:32-40 | A flush loop starts by marking itself and turning once |
| Sink.RedisStreamSink.Turn | apps/gateway/src/sink.ts:35-47 | The loop head publishes the first buffered event or ends the loop |
| Sink.RedisStreamSink.OnFlushOk | apps/gateway/src/sink.ts:37-41 | A resolved publish shifts the head off and turns the loop |
| Sink.RedisStreamSink.OnFlushFailed | apps/gateway/src/sink.ts:42-44 | A rejected publish keeps the head and sleeps |
| Sink.RedisStreamSink.OnTimer | apps/gateway/src/sink.ts:43 | The end of the sleep turns the loop |
| Pipeline.InvAlways | apps/worker/src/ingest/consumer.ts:47-90 | In every reachable state copies of an id are identical, acked and persisted entries are settled, delivered entries are pending or acked, and every emitted event is accounted for |
| Pipeline.CopiesKept | packages/queue/src/index.ts:43 | Every step keeps: whatever is on the stream or stored was emitted, and an id names one event |
| Pipeline.SafeKept | apps/worker/src/ingest/consumer.ts:60-75 | Every step keeps: what is acked, or persisted and about to be acked, is settled |
| Pipeline.TrackedKept | apps/worker/src/ingest/consumer.ts:50-55 | Every step keeps: what the group has delivered from the present stream is pending or acked |
| Pipeline.AckedIsSettled | apps/worker/src/ingest/consumer.ts:60-75 | Over every run an acked entry is in the DLQ, or its event is stored or was stored until retention deleted it |
| Pipeline.NothingIsLost | apps/worker/src/ingest/consumer.ts:47-90 | Over every run an emitted event is with its gateway, counted as dropped, or a log entry that is undelivered, pending, acked or lost with the stream |
| Pipeline.AbandonedIsNotRetried | apps/worker/src/ingest/consumer.ts:50-55 | A delivered, unacked entry that no worker holds stays so, and is not delivered again, over every run in which stream and group survive |
| Pipeline.RetriedIffGroupIsLost | apps/worker/src/ingest/consumer.ts:50-84 | Over every run that keeps the stream, such an entry has been delivered again, or can be without further loss, if and only if the group has been lost |
| Runs.FailedBatchIsAbandoned | apps/worker/src/ingest/consumer.ts:49-88 | A run from an initial state in which a worker fails with a batch in hand and its entry is abandoned |
| Pipeline.CommitSettles | apps/worker/src/ingest/persist.ts:14-49 | After a commit every entry of the batch is settled, as the very event that was sent |
| Pipeline.AckClears | apps/worker/src/ingest/consumer.ts:73-75 | An ack takes exactly the batch out of the pending entries |
| Pipeline.WindowIsKept | apps/worker/src/jobs/retention.ts:22-33 | Over every run, an event ever stored is stored still unless it is past the retention window |
| Exactness.ExactIffCareful | apps/worker/src/ingest/persist.ts:11-50 | Over every run a table's requests number the rows ever stored, all different, if and only if no commit had an unstored event twice or brought back a deleted one; otherwise it counts too much, never too little |
| Exactness.RowsAreExact | apps/worker/src/ingest/persist.ts:20-47 | In every careful run each count and token measure of every hourly and daily row is the sum over the stored events of its key, each once |
| Exactness.TableCounts | apps/worker/src/ingest/persist.ts:20-47 | In every run, careful or not, the counts of a table are the counts of the events counted, over any choice of buckets |
| Exactness.CountedIsStored | apps/worker/src/ingest/persist.ts:15-18 | In a careful run the events counted are the events stored, in every measure |
| Exactness.TallyKept | apps/worker/src/ingest/persist.ts:15-20 | One step keeps exactness if and only if it is careful, and never stores an event uncounted |
| Exactness.CleanMeans | apps/worker/src/ingest/persist.ts:18 | With identical copies, filtering by inserted id is right exactly when no unstored event occurs twice in the batch |
| Exactness.CommitDuplicates | apps/worker/src/jobs/retention.ts:24-33 | A commit stores an event a second time exactly when retention had deleted it and the batch brings it back |
| Exactness.OnlyStoredAlways | apps/worker/src/ingest/persist.ts:15-20 | In every run only events that were stored are counted |
| Exactness.CostWithinBound | packages/db/prisma/migrations/0_init/migration.sql:321-371 | Over any choice of buckets a table's cost is within 5e-7 USD per increment of the exact sum of its stored events |
| Exactness.DailyIsHourly | apps/worker/src/ingest/persist.ts:20-47 | In every reachable state the daily table is the hourly table by day, in every additive measure and for rounded cost too |
| Exactness.EachDayIsItsHours | apps/worker/src/ingest/persist.ts:20-47 | In every reachable state each daily row is, in every measure, the sum of the hourly rows of its day and dimensions |
| Runs.TwinsAreCountedTwice | apps/worker/src/ingest/persist.ts:18 | A run in which a retried publish lands twice in one batch: one row, two requests |
| Runs.PurgedEventsAreCountedAgain | apps/worker/src/jobs/retention.ts:22-33 | A run in which an event ages past its retention, its row is deleted, and a group recreated from the start of the stream stores and counts it again |
| Consumer.DecodeBatch | apps/worker/src/ingest/consumer.ts:102-128 | Every entry's id is acked, and each entry either decodes or goes to the DLQ with its payload |
| Consumer.DecodesIff | apps/worker/src/ingest/consumer.ts:106-127 | An entry decodes exactly when the text behind its first "payload" is not empty and parses to an event with an id, a workspace and an instant; any other becomes a dead letter with that text |
| Consumer.PublishedDecodes | packages/queue/src/index.ts:101-108 | From any stretch of a stream of published events the worker gets exactly those with an id and a workspace, in order, and the rest become dead letters with their texts, in order |
| Consumer.Ingest.Iteration | apps/worker/src/ingest/consumer.ts:48-88 | Whatever call throws, having taken effect or not, one iteration is a run of pipeline steps that ends idle; what it leaves in the tables, the DLQ, the group and the acked entries is stated for every combination, and the next entries are acked exactly when the read succeeds, all letters are written, the database takes the batch, and the ack takes effect; a missing group is recreated |
| Consumer.Ingest.ReadAndProcess | apps/worker/src/ingest/consumer.ts:50-75 | The try block, with the same statement for a group that exists |
| Consumer.Ingest.Process | apps/worker/src/ingest/consumer.ts:60-75 | DLQ writes, transaction and ack happen in this order, each as its step |
| Consumer.Ingest.Persist | apps/worker/src/ingest/consumer.ts:67-72 | The transaction succeeds exactly when the commit step is enabled, and otherwise changes nothing |
| Consumer.Ingest.ReadGroup | apps/worker/src/ingest/consumer.ts:50-58 | The next undelivered entries are delivered to this worker and become pending |
| Consumer.Ingest.WriteLetters | apps/worker/src/ingest/consumer.ts:61-66 | Invalid entries are written to the DLQ one by one, in order |
| Consumer.Ingest.WriteDeadLetters | apps/worker/src/ingest/consumer.ts:61-66 | All invalid entries reach the DLQ, or the first write that throws, having taken effect or not, ends the body |
| Consumer.Ingest.PersistAndAck | apps/worker/src/ingest/consumer.ts:67-75 | The batch is acked only after a transaction that succeeded and was seen to, and is acked whenever both calls succeed; a commit whose reply is lost is not acked |
| Consumer.Ingest.Acknowledge | apps/worker/src/ingest/consumer.ts:73-75 | The batch leaves the pending set and counts as acked |
| Consumer.Ingest.EnsureConsumerGroup | apps/worker/src/ingest/consumer.ts:13-19 | A missing group is recreated from the start of the stream; an existing one stays |
| Ledger.UsageStore.PersistBatch | apps/worker/src/ingest/persist.ts:11-50 | It succeeds exactly when every row is accepted and every fresh cost is readable; then the state is the commit of the old one, and otherwise unchanged |
| Ledger.UsageStore.InsertEvents | apps/worker/src/ingest/persist.ts:72-102 | Exactly the events whose key is neither stored nor earlier in the batch are inserted and returned |
| Ledger.UsageStore.TouchVirtualKeys | apps/worker/src/ingest/persist.ts:55-70 | The update through the `latest` map is Touch of the old column |
| Ledger.TouchMovesForward | apps/worker/src/ingest/persist.ts:54-70 | lastUsedAt of an existing key never moves back, reaches every event of the key, and moves only to one of them |
| LastUsed.CommitTouches | apps/worker/src/ingest/persist.ts:18-19 | What a commit does to lastUsedAt of an existing key: it reaches every inserted event of the key, never moves back and moves only to an event of the key in the batch; no key appears or disappears |
| LastUsed.LastUsedIsLatest | apps/worker/src/ingest/persist.ts:54-70 | In every reachable state lastUsedAt of a key is the latest of its initial value and of the instants of its events ever stored |
| LastUsed.NeverBack | apps/worker/src/ingest/persist.ts:69 | No step of any run moves it back |
| Ledger.UsageStore.ApplyIncrements | apps/worker/src/ingest/persist.ts:20-47 | Both tables receive every increment, under its hour and under its day |
| Ledger.UsageStore.UpsertBoth | apps/worker/src/ingest/persist.ts:21-46 | One increment, read back from its texts, goes into both tables |
| Ledger.RoundingError | packages/db/prisma/migrations/0_init/migration.sql:347 | A rollup column rounds an increment's cost by at most half a unit |
| LedgerLaws.UpsertAllSums | apps/worker/src/ingest/persist.ts:20-47 | A table after upserts adds up to the table before plus its rounded increments, in every additive measure |
| LedgerLaws.RowsStayDistinct | packages/db/prisma/migrations/0_init/migration.sql:352-376 | Upserts keep one row per key |
| LedgerLaws.RowIsSum | apps/worker/src/ingest/persist.ts:32-45 | A row holds the sum over its key |
| LedgerLaws.DayIncrementsFollowHours | apps/worker/src/ingest/persist.ts:20-22 | The day table receives the hour table's increments under the day of the hour |
| LedgerLaws.RoundingDrift | packages/db/prisma/migrations/0_init/migration.sql:347-371 | Rounded cost strays from the exact cost by at most half a unit per increment |
| LedgerLaws.CountedExactlyWhenClean | apps/worker/src/ingest/persist.ts:15-20 | For any batch and table, the events counted are the rows inserted if and only if every event that shares an inserted id was inserted; otherwise more are counted |
| LedgerLaws.DistinctIdsAreClean | apps/worker/src/ingest/persist.ts:18 | A batch with distinct ids is counted exactly |
| LedgerLaws.TwinCopiesCountTwice | apps/worker/src/ingest/persist.ts:18 | Two copies of a new event in a batch: one inserted, both counted |
| LedgerLaws.ShiftedCopyCountsTwice | packages/db/prisma/migrations/0_init/migration.sql:328 | A copy with another instant is another row |
| Reconcile.RunReconcile | apps/worker/src/jobs/reconcile.ts:20-62 | It checks every day of the window with raw events and counts exactly those whose requests differ or whose cost, in doubles, is off by more than 1e-6 USD |
| Reconcile.RollupByDay | apps/worker/src/jobs/reconcile.ts:36-44 | The map holds exactly the days with rollup rows and their sums |
| Reconcile.RawDaysMeaning | apps/worker/src/jobs/reconcile.ts:28-34 | The days checked are distinct, lie in the window, and cover every raw event of it |
| Reconcile.WindowBegins | apps/worker/src/jobs/reconcile.ts:25-26 | The window begins with the UTC day that the instant windowDays days ago falls in |
| Reconcile.DaysChecked | apps/worker/src/jobs/reconcile.ts:25-34 | Every raw event of the last windowDays days lies in a day that is checked; each of these is a whole UTC day that holds a raw event and does not end before the window begins |
| Reconcile.DoubleCountsAreReported | apps/worker/src/jobs/reconcile.ts:47-51 | Over every run with no deletion in the window, a day of the window on which more events were counted than stored is checked and reported |
| Reconcile.RetentionSparesTheWindow | apps/worker/src/jobs/retention.ts:22-33 | Nothing of a window that lies within the retention window is ever deleted |
| Reconcile.DriftIsRounding | apps/worker/src/jobs/reconcile.ts:44-58 | After any careful run with no deletion in the window, no day drifts in requests, and cost drifts by at most 5e-7 USD per increment |
| Reconcile.QuietUpToTwoIncrements | apps/worker/src/jobs/reconcile.ts:44-58 | Such a run is reported clean when every day of the window, of up to 16 million USD, received one increment, or two whose rounding does not come to exactly 1e-6 USD |
| Reconcile.DriftsIffRoundingShows | apps/worker/src/jobs/reconcile.ts:47-52 | After any careful run with no deletion in the window, a day is reported exactly when the double of its raw cost and that of what rounding its increments makes of it are too far apart: always if rounding has moved it by more than 1e-6 USD, never if by less, on days of up to 16 million USD |
| Reconcile.BoundaryGoesEitherWay | apps/worker/src/jobs/reconcile.ts:50-51 | Of two pairs of sums that are exactly 1e-6 USD apart, the doubles report one and not the other |
| Doubles.ExceedsOffTheBoundary | apps/worker/src/jobs/reconcile.ts:50-51 | Up to 16 million USD the comparison in doubles decides as exact numbers do unless the sums are exactly 1e-6 USD apart |
| Doubles.Near | apps/worker/src/jobs/reconcile.ts:50 | Number() of anything below 2^25 is off by at most 2^-29 |
| Runs.HalvesAreReportedFromTheThirdOn | apps/worker/src/jobs/reconcile.ts:50-51 | A careful run of n events of one day at 5e-7 USD each: the day is reported exactly when n is at least 3 |
| Runs.TwoHalvesCanBeReported | apps/worker/src/jobs/reconcile.ts:50-51 | A careful run of two events of 0.50000050 USD on one day, which is reported |
| Runs.EqualCostsDrift | apps/worker/src/jobs/reconcile.ts:47-52 | A careful run of n events of any one cost on one day: the doubles of n rounded and of n exact costs decide |
| Rollups.GroupRollups | apps/worker/src/ingest/rollups.ts:33-79 | It throws exactly when some cost does not parse, and otherwise returns the grouping by text key in order of first appearance |
| Rollups.TruncationNests | apps/worker/src/ingest/rollups.ts:81-86 | A bucket is a whole unit that contains its instant, and the day of the hour is the day |
| Rollups.JoinIsInjective | apps/worker/src/ingest/rollups.ts:40-42 | Joining with bars is injective when no part but the last holds one |
| Rollups.TextKeyIsExact | apps/worker/src/ingest/rollups.ts:40-42 | On events with plain ids the text key identifies exactly the hour and the dimensions |
| Rollups.BarsCollide | apps/worker/src/ingest/rollups.ts:40-42 | A bar in an id merges two dimension tuples |
| Rollups.TextGroupsAreExact | apps/worker/src/ingest/rollups.ts:33-79 | Grouping by text is grouping by hour and dimensions |
| Rollups.GroupingIsFiled | apps/worker/src/ingest/rollups.ts:44-61 | Output keys are distinct and every group is filed under its own hour and day |
| Rollups.GroupingIsASum | apps/worker/src/ingest/rollups.ts:63-72 | The groups add up to the events in every additive measure, by hour and by day |
| Rollups.GroupingCovers | apps/worker/src/ingest/rollups.ts:44-61 | A bucket has a group exactly when an event falls into it |
| Rollups.GroupingMerges | apps/worker/src/ingest/rollups.ts:33-79 | Grouping a ++ b adds up to the groupings of a and of b |
| Rollups.SumIgnoresOrder | apps/worker/src/ingest/rollups.ts:36-73 | The order of events does not matter |
| Rollups.IncrementReadsBack | apps/worker/src/ingest/rollups.ts:75-78 | Nothing of a group is lost in its increment, the cost text included |
| Money.MatchDecimal | apps/worker/src/ingest/rollups.ts:90 | What the pattern accepts is a literal whose text is the input |
| Money.MatchRender | apps/worker/src/ingest/rollups.ts:90 | The pattern accepts every decimal literal and takes it apart uniquely |
| Money.Grammar | apps/worker/src/ingest/rollups.ts:90 | The pattern accepts exactly a minus or none, digits, and a dot with digits or neither |
| Money.ParseMeaning | apps/worker/src/ingest/rollups.ts:89-97 | A literal is accepted exactly when it has at most `scale` places, and gives the number it denotes times 10^scale |
| Money.ParseAccepts | apps/worker/src/ingest/rollups.ts:89-97 | Nothing else is accepted |
| Money.ParseFormat | apps/worker/src/ingest/rollups.ts:89-104 | Formatting then parsing gives every integer back exactly when the scale is at least 1 |
| Money.PriceCodecsAgree | packages/pricing/src/calculator.ts:36-42 | The gateway's price reader is the worker's reader at scale 6, on every text without a minus sign |
| Money.CostCodecsAgree | packages/pricing/src/calculator.ts:45-51 | formatPicoUsd prints formatScaled of the amount cut to 1e-8 USD, which the worker reads back |
| Money.NegativePicoUnreadable | packages/pricing/src/calculator.ts:45-51 | Below zero the worker reads the printed text exactly when the amount is whole dollars up to truncation |
| Calculator.WorkerReadsBack | packages/pricing/src/calculator.ts:18-33 | A cost is produced exactly when each of the four counts is zero, or a positive whole number whose own price field reads as an unsigned decimal of at most six places; the worker reads it as the sum of each count times the price of its own class, cut to 1e-8 USD |
| Calculator.CostIsLinear | packages/pricing/src/calculator.ts:18-25 | For whole counts i, o, r, w and price fields that read as a, b, c, d the worker reads (i·a + o·b + r·c + w·d) / 10,000 units of 1e-8 USD |
| Calculator.CostIsMonotone | packages/pricing/src/calculator.ts:18-33 | More tokens or higher prices never lower the stored cost |
| Calculator.TruncationLoss | packages/pricing/src/calculator.ts:44-51 | n requests never overcharge and lose less than n times 1e-8 USD in all |
| Calculator.TimesIsProduct | packages/pricing/src/calculator.ts:32 | The model's repeated addition is multiplication |
| Matcher.FindIn | packages/pricing/src/matcher.ts:31-45 | It returns the first applicable entry that none beats, or nothing when none applies |
| Matcher.MatchPrice | packages/pricing/src/matcher.ts:22-29 | Overrides decide when any of them applies, else the catalog; the entry found applies to this provider and model |
| Matcher.SelectionIsUnique | packages/pricing/src/matcher.ts:14-21 | The declared rule leaves no choice |
| Matcher.SelectedIsUnbeaten | packages/pricing/src/matcher.ts:14-21 | No applicable entry beats the selected one: exact before prefix, longest prefix first |
| Matcher.RuleInPlainTerms | packages/pricing/src/matcher.ts:14-45 | The entry found spells the model if any entry of the provider does, and is the first that does; otherwise no pattern that applies is longer, and of equally long ones it is the first |
| Matcher.StarMatchesPrefixes | packages/pricing/src/matcher.ts:47-51 | The pattern p + "*" applies to exactly the models that begin with p, or are the pattern itself |
| Matcher.PlainMatchesItself | packages/pricing/src/matcher.ts:37-51 | A pattern without a trailing star applies to the model it spells alone, the bare star to every model |
| Matcher.TiesShareThePattern | packages/pricing/src/matcher.ts:39 | Two applicable entries of which neither beats the other have the same provider and pattern |
| Matcher.OrderIrrelevant | packages/pricing/src/matcher.ts:31-45 | With unique provider and pattern pairs, any permutation gives the same entry |
| Matcher.DuplicatesDependOnOrder | packages/pricing/src/matcher.ts:31-45 | With duplicates the order decides |
| FrameTap.FrameTap.Transform | apps/gateway/src/proxy/core.ts:99-117 | One chunk hands over exactly the frames it completes and keeps the rest pending; onFirstByte is called once |
| FrameTap.FrameTap.Drain | apps/gateway/src/proxy/core.ts:105-114 | The while loop ends and hands over the completed frames in order |
| FrameTap.FrameTap.TakeFrame | apps/gateway/src/proxy/core.ts:110-113 | A non-blank frame goes to the callbacks, a blank one nowhere |
| FrameTap.FrameTap.Flush | apps/gateway/src/proxy/core.ts:119-128 | What is pending at the end is a last frame unless blank |
| FrameTap.StreamIsFramed | apps/gateway/src/proxy/core.ts:86-129 | However the text is cut, the callbacks get exactly the non-blank pieces of the whole text split at leftmost delimiters, and passthrough output is the input |
| FrameTap.ChunkingIsIrrelevant | apps/gateway/src/proxy/core.ts:86-129 | Two cuttings of one text give the same frames, state and output |
| FrameTap.SplitJoins | apps/gateway/src/proxy/core.ts:107-109 | The pieces joined with the delimiter are the text, and no piece holds a delimiter |
| Anthropic.UsageExtractor.OnFrame | packages/providers/src/anthropic.ts:55-72 | The closure always holds what the frames so far add up to, one observation per frame |
| Anthropic.UsageExtractor.Finish | packages/providers/src/anthropic.ts:15-74 | Each field of the result: model and the counts of the message, input and output as last reported, the cache counts of message_start, no reasoning tokens; complete exactly when a delta reported usage. It equals parseUsage of the message exactly when the cache counts are settled at message_start |
| Anthropic.OpenaiStream.OnFrame | packages/providers/src/translate.ts:118-135 | The chunks handed out so far are always the translation of the frames so far |
| Anthropic.MeterReads | packages/providers/src/anthropic.ts:55-72 | After any stream with one message_start the extractor holds input and output as last reported and the cache counts as message_start left them |
| Anthropic.StartReplaces | packages/providers/src/anthropic.ts:60-63 | A further message_start replaces the model and the counts it names, a null counting as zero, and keeps the rest |
| Anthropic.StreamedUsageIsParsedUsage | packages/providers/src/anthropic.ts:44-74 | The extractor agrees with parseUsage of the message, every count as last reported, if and only if message_delta leaves the cache counts of message_start as they are and reports usage when it did |
| Anthropic.LateCacheCountIsDropped | packages/providers/src/anthropic.ts:64-70 | A stream whose message_delta reports 7 cached tokens: the message says 7, the meter 0 |
| Anthropic.StreamedTranslationIsBuffered | packages/providers/src/translate.ts:74-137 | A complete stream, with or without usage and with any number of message_delta events, becomes one role chunk, content, a finish chunk for each message_delta, and one DONE. The contents spell the buffered text exactly when every block starts empty; the last finish chunk has the buffered finish_reason exactly when the last message_delta names a stop reason or the buffered one is "stop"; and there is one finish chunk, with that reason, exactly when there is one message_delta |
| Anthropic.OneRoleChunk | packages/providers/src/translate.ts:122-124 | However many message_start events a stream has, it yields one role chunk; without one, none |
| Anthropic.FinishReasons | packages/providers/src/translate.ts:59-64 | "length" stands for max_tokens alone, "tool_calls" for tool_use alone, and "stop" for everything else |
| Anthropic.DataLineIsParsed | packages/providers/src/openai-compatible.ts:47-57 | A data line carries what its text, white space cut off, parses to |
| Anthropic.OtherLinesAreSkipped | packages/providers/src/openai-compatible.ts:48-49 | Other lines of a frame carry nothing, and of several data lines the first counts |
| Anthropic.NoDataInAnEmptyLine | packages/providers/src/openai-compatible.ts:50-51 | An empty data line and the end marker carry nothing |
| Anthropic.TwoDeltasFinishTwice | packages/providers/src/translate.ts:128-130 | A stream with two message_delta events: the client gets finish_reason "stop" and then "length" |
| Anthropic.InitialTextIsDropped | packages/providers/src/translate.ts:125-127 | A stream whose block starts with text: the buffered translation has it, the streamed one does not |
| Anthropic.MeteringIgnoresTheNetwork | packages/providers/src/anthropic.ts:49-96 | However the network cuts any stream, the client receives the text unchanged and the metered usage is what its events add up to, equal to parseUsage under the same condition |
| Anthropic.TranslationIgnoresTheNetwork | packages/providers/src/translate.ts:99-137 | However the network cuts any stream, the text written is the rendering of its events |
| OpenAi.PromptIsSplit | packages/providers/src/openai-compatible.ts:33-39 | Input and cached tokens together are the prompt, or the cached tokens if those are more; neither is charged twice |
| OpenAi.StreamUsageExtractor.OnFrame | packages/providers/src/openai-compatible.ts:107-112 | The closure always holds the response that the frames so far stand for |
| OpenAi.StreamUsageExtractor.Finish | packages/providers/src/openai-compatible.ts:28-45 | Each field of the result, from the last usage reported and the last model named: output, reasoning and cached tokens, missing ones being zero, input as the prompt without its cached tokens cut at zero, no cache writes, the cost as reported; complete exactly when some frame reported usage |
| OpenAi.OneResponse | packages/providers/src/openai-compatible.ts:103-115 | A stream stands for one response only |
| KeyCache.ResolvedIsRecent | apps/gateway/src/stores/cached.ts:26-51 | With any number of gateways, a resolve that started at t returns a value the inner store held later than t - 65 s - delay |
| KeyCache.DeleteTakesEffectIffNothingStraddles | apps/api/src/modules/keys.ts:186-191 | In any reachable state, all calls from 5 s after a Redis delete return the current value, however the run goes on, if and only if no older inner read straddles the delete |
| KeyCache.InvAlways | apps/gateway/src/stores/cached.ts:18-66 | Every copy anywhere was held by the inner store, and each tier's expiry bounds its age |
| KeyCache.FreshAlways | apps/gateway/src/stores/cached.ts:26-51 | Once no stale copy can reach Redis, those left run out after 5 s |
| KeyCache.StraddlingIsServed | apps/gateway/src/stores/cached.ts:43-47 | From any state with a straddling read there is a run that serves its value to a later call |
| KeyCache.StraddlingIsReached | apps/gateway/src/stores/cached.ts:43-46 | From any initial state, a run reaches an update that an inner read straddles |
| KeyCache.FailedGetAsksTheInnerStore | apps/gateway/src/stores/cached.ts:39-50 | A call that Redis fails goes on to the inner store, returns what it holds, keeps it for 5 s from its start and sends it to Redis |
| KeyCache.InnerFailureEndsTheCall | apps/gateway/src/stores/cached.ts:43 | An inner store that fails ends the call, and nothing is kept |
| KeyCache.RedisDecides | apps/gateway/src/stores/cached.ts:33-38 | An entry of Redis that has not expired answers the call and is kept for 5 s from its start; otherwise the inner store is asked |
| KeyCache.RedisKeepsAMinute | apps/gateway/src/stores/cached.ts:46 | What a SET leaves in Redis answers for 60 s and no longer |
| KeyCache.LocalAnswersForFiveSeconds | apps/gateway/src/stores/cached.ts:27-29 | A value kept answers the gateway's later calls without Redis until 5 s after the start of the call that obtained it, and no longer |
| KeyCache.InvalidatedAsksAgain | apps/gateway/src/stores/cached.ts:53-55 | After an invalidation the gateway asks Redis again, whatever happens until some call is answered |
| KeyCache.CachedKeyStore.Begin | apps/gateway/src/stores/cached.ts:26-29 | The first stretch of resolve is the Start step: a local entry answers exactly while it has not expired |
| KeyCache.CachedKeyStore.OnRedisReply | apps/gateway/src/stores/cached.ts:33-42 | The stretch after the answer of Redis is the RedisReply step |
| KeyCache.CachedKeyStore.OnInnerReply | apps/gateway/src/stores/cached.ts:43-46 | The stretch after the answer of the inner store is the InnerReply step |
| KeyCache.CachedKeyStore.Forget | apps/gateway/src/stores/cached.ts:53-55 | invalidate is the Invalidate step, other keys untouched |
| RateLimit.WaitingOpensTheNextWindow | apps/gateway/src/ratelimit.ts:4-7 | retryAfterS lies in 1..60 and waiting it lands in a later window |
| RateLimit.WaitIsRight | apps/gateway/src/ratelimit.ts:4-7 | Whatever the history, the wait that a decision of either limiter names is 1 to 60 seconds and lands in the next window |
| RateLimit.CountersExpire | apps/gateway/src/ratelimit.ts:21-22 | A counter lives two minutes from its first check, whatever checks follow |
| RateLimit.CountsWithoutExpiry | apps/gateway/src/ratelimit.ts:21-25 | A check that counts and then throws leaves a count one higher, and no expiry if it was the first |
| RateLimit.RedisRateLimiter.Check | apps/gateway/src/ratelimit.ts:17-27 | A check counts and decides; it is let through when Redis is down, and when the count took effect but a call threw |
| RateLimit.RedisDecidesRight | apps/gateway/src/ratelimit.ts:17-27 | Over every history a check is allowed exactly when fewer than the limit came before it in its window |
| RateLimit.CounterCounts | apps/gateway/src/ratelimit.ts:20-22 | A window's counter counts its checks, and its expiry outlives every check that can still land |
| RateLimit.KeysAreDistinct | apps/gateway/src/ratelimit.ts:36 | The key text determines bucket and window |
| RateLimit.WindowAllowsExactly | apps/gateway/src/ratelimit.ts:21-23 | Redis lets exactly the first `limit` checks of a window through |
| RateLimit.MinuteAllowsAtMostTwice | apps/gateway/src/ratelimit.ts:4-28 | Redis lets no more than twice the limit through in any 60 s interval |
| RateLimit.TwiceIsReached | apps/gateway/src/ratelimit.ts:4-28 | Redis lets two full bursts around a window boundary through, which reaches that bound |
| RateLimit.MemoryRateLimiter.Check | apps/gateway/src/ratelimit.ts:34-41 | The in-process variant counts, decides, and clears past 10,000 keys |
| RateLimit.MemoryDecidesRight | apps/gateway/src/ratelimit.ts:31-42 | Over every history a check is allowed exactly when fewer than the limit of its window came since the last clearing; so it differs from the reference exactly when those are below the limit and all of the window are not, and never denies what the reference allows |
| RateLimit.MemoryCounts | apps/gateway/src/ratelimit.ts:36-39 | After every history the map holds exactly the counts of the checks since the last clearing |
| RateLimit.FewKeysNeverClear | apps/gateway/src/ratelimit.ts:39 | The map has never been cleared if and only if the history has at most 10,000 different keys |
| RateLimit.ForgettingIsBounded | apps/gateway/src/ratelimit.ts:36-40 | Over every history a window lets through at most the limit, and as many again for each clearing that lost a count of it |
| RateLimit.MemoryBounds | apps/gateway/src/ratelimit.ts:31-42 | Over such a history the in-process limiter keeps both bounds |
| RateLimit.ClearingForgets | apps/gateway/src/ratelimit.ts:39 | A history of 10,002 checks after which a bucket at its limit is let through again within its window |
| Sessions.AuthModule.OnLogin | apps/api/src/modules/auth.ts:56-75 | A login adds one live session of a new family |
| Sessions.AuthModule.OnRefresh | apps/api/src/modules/auth.ts:125-154 | A refresh performs its step: denied, family revoked, or rotated |
| Sessions.AuthModule.OnLogout | apps/api/src/modules/auth.ts:156-166 | A logout revokes the presented token |
| Sessions.RefreshAnswers | apps/api/src/modules/auth.ts:125-153 | For every table: a refresh is answered with a session if and only if the token's row exists, is not revoked and has not expired; every row of the table that results is stated, for this case, for an unknown or expired token, which change nothing, and for reuse |
| Sessions.NoSessionForAnExpiredToken | apps/api/src/modules/auth.ts:133-136 | Over every run, the same condition: no session is ever issued on a token that is expired at that instant |
| Sessions.LoginAdds | apps/api/src/modules/auth.ts:56-75 | A login adds one live session of its own family that lives 30 days, and changes no other row |
| Sessions.LogoutEndsTheFamily | apps/api/src/modules/auth.ts:156-166 | A logout of a live session touches that row alone and ends its family for good |
| Sessions.FamiliesOverRuns | apps/api/src/modules/auth.ts:125-166 | Over every run a family has at most one live session, and a dead family stays dead |
| Sessions.ReuseEndsTheFamily | apps/api/src/modules/auth.ts:137-146 | Presenting a revoked unexpired token ends its family for good |
| Sessions.RefreshRotates | apps/api/src/modules/auth.ts:148-153 | A successful refresh kills the presented token and leaves the new one as the only live session |
| RefreshSteps.HandlerIsItsStatements | apps/api/src/modules/auth.ts:125-154 | Without interleaving the statements of a refresh do what the atomic handler does, for every token |
| RefreshSteps.OtherHandlersAreSteps | apps/api/src/modules/auth.ts:56-166 | Login and logout are one statement each, which does what the atomic handler does |
| RefreshSteps.RotationHoldsIffOrderly | apps/api/src/modules/auth.ts:125-166 | Over every interleaving of statements: one live session a family, dead families stay dead and no token is handed on twice, throughout, if and only if no refresh creates its session after another create or revocation in the family came after its read |
| RefreshSteps.OrderlyKept | apps/api/src/modules/auth.ts:129-152 | A step that is not a late create keeps the invariant that an undisturbed refresh holds its family |
| RefreshSteps.LateCreateBreaks | apps/api/src/modules/auth.ts:148-152 | A late create hands a token on twice or puts a live session into a dead family |
| RefreshSteps.InterleavedRefreshesForkTheFamily | apps/api/src/modules/auth.ts:129-152 | A run of statements, from an empty table, in which two refreshes read before either writes and two live sessions remain |
| RefreshSteps.InterleavedRevokeIsUndone | apps/api/src/modules/auth.ts:148-163 | A run of statements in which a logout between a refresh's read and its create is undone |
| RefreshSteps.Handlers.OnRead | apps/api/src/modules/auth.ts:129-136 | The first statement and its checks are the Read step |
| RefreshSteps.Handlers.OnReuse | apps/api/src/modules/auth.ts:137-142 | The family update is the RevokeFamily step |
| RefreshSteps.Handlers.OnRevoke | apps/api/src/modules/auth.ts:148-151 | The session update is the RevokeOwn step |
| RefreshSteps.Handlers.OnCreate | apps/api/src/modules/auth.ts:152 | issueSession is the Create step |
| Csv.CellReadsBack | packages/shared/src/csv.ts:3-7 | An RFC 4180 reader recovers every cell, whatever it contains |
| Csv.PlainCellStays | packages/shared/src/csv.ts:3-7 | A cell without commas, quotes and line breaks is printed as it is, a missing one as nothing |
| Csv.RowReadsBack | packages/shared/src/csv.ts:9-11 | And every non-empty row, at the end or before an LF |
| Csv.LoneRowReadsBack | packages/shared/src/csv.ts:9-11 | A row alone reads back exactly when it has a cell |
| Csv.FileReadsBack | apps/worker/src/jobs/export-csv.ts:136-138 | A file of non-empty rows reads back as its rows |
| Export.WriteUsageEvents | apps/worker/src/jobs/export-csv.ts:72-117 | For any batch size the loop ends with the file of the whole answer, and `total` is its length |
| Export.AnswerIsExact | apps/worker/src/jobs/export-csv.ts:85-99 | The answer holds exactly the matching rows, each once, strictly descending by (occurredAt, id) |
| Export.PageIsNextStretch | apps/worker/src/jobs/export-csv.ts:85-99 | A page behind the cursor is the next stretch of the answer, ties on occurredAt included |
| Export.ExportReadsBack | apps/worker/src/jobs/export-csv.ts:72-138 | A reader recovers exactly the matching rows, in order, after the header |
| Export.ScopeConfines | apps/worker/src/jobs/export-csv.ts:119-134 | A scoped member exports only their own rows of their workspace |
| Export.AnswerByColumns | apps/worker/src/jobs/export-csv.ts:85-134 | The rows of an export column by column: workspace, scope or member, project, provider, model, from and to; the latest first, and of one instant the larger id |
| Export.Job.Run | apps/worker/src/jobs/export-csv.ts:24-70 | Whichever await throws, an update with or without having taken effect: what the row says after the attempt, and when an exception reaches the queue |
| Export.WhatAnAttemptDoes | apps/worker/src/jobs/export-csv.ts:35-69 | An attempt on an open job, update by update: which status, count, file and error the row has for every combination of calls that fail |
| Export.TerminalIffSomeAttemptEnds | apps/worker/src/jobs/export-csv.ts:35-69 | After any attempts a job is terminal if and only if the DONE or the FAILED update of one took effect; the first such attempt decides, each column by the update that sets it; otherwise it is RUNNING if and only if a RUNNING update took effect |
| Export.WhatAStatusPromises | apps/worker/src/jobs/export-csv.ts:18-23 | DONE always comes with the whole answer and no error; FAILED with an error and neither file nor count, unless the reply of a DONE update was lost |
| Export.LostReplyFailsAFinishedJob | apps/worker/src/jobs/export-csv.ts:55-67 | A DONE update that takes effect and throws leaves a FAILED row with the finished file and its count |
| Export.OutageLeavesItRunning | apps/worker/src/jobs/export-csv.ts:65-67 | Two attempts, as many as a job gets, in which the FAILED update throws too leave the job RUNNING |
| Uuid.Uuidv7 | packages/shared/src/uuid.ts:6-23 | The byte array is laid out and printed as the version 7 text |
| Uuid.Fill | packages/shared/src/uuid.ts:7-19 | The assignments lay out time, version, variant and random bytes |
| Uuid.TimeReadsBack | packages/shared/src/uuid.ts:10-16 | For ms below 2^48 the timestamp can be read back from the text |
| Uuid.RandomBitsTellApart | packages/shared/src/uuid.ts:7-19 | Two ids are the same text only if they agree in the 74 random bits |
| Uuid.EarlierSortsFirst | packages/shared/src/uuid.ts:1-5 | A smaller ms gives a lexicographically smaller text, whatever the random bytes |
| Uuid.VersionAndVariant | packages/shared/src/uuid.ts:18-19 | Version digit and variant digit are in place |

## Left out

- Liveness: that every event is eventually stored is false of the code, which never claims pending entries; safety is proved instead.
- The MAXLEN trim of the stream: the log keeps every entry; losing the whole stream is a step.
- Teams: the first event of a row decides its teamId, so no exact statement about teams holds.
- JSON text: JSON.parse, JSON.stringify and toISOString are parameters with the properties a lemma needs stated in it; frames and rows are parsed values.
- Strings compared as instants: touchVirtualKeys compares ISO texts, the model the instants they denote.
- Columns of events that no modelled code reads (endpoint, requestId, tags, unitPrices, ttftMs, credentialId, modelRaw, httpStatus).
- Postgres: tables are sequences, a transaction commits or leaves no trace, and casts and constraints are a predicate on events; overflow of a rollup column is an abort.
- A cost text with more than eight places makes the worker reject its whole batch, so how the raw column would round it never matters.
- Doubles of 2^53 and more and subnormal ones: reconcile's rule is stated for days of up to 16 million USD.
- RETURNING id is taken to give back an event's own text; an id that is not in canonical lower case would be stored and not counted. The gateway's ids are canonical.
- An export job deleted while it is queued, and two attempts at one job at once.
- Chunk boundaries inside a UTF-8 character: chunks are text, as if cut on character boundaries.
- One clock: gateways, Redis and the API share it in the key cache; the limiter's calls carry their own clock reading and landing time.
- Reconnects that reorder one client's commands; a Redis SET may land late, within the bound, even after its call has failed.
- Hashes are injective and random ids, tokens and UUIDs are fresh where a step says so.
- Token counts are whole numbers in events; the calculator alone also meets fractions.
- Gemini, Ollama and Minimax adapters, request translators, HTTP, mail, RBAC, CRUD and analytics routes: no further hard property.
- Register and the user checks of login: they end in the same session step as a login.
- Retention and export clean-up loops: retention is a step that deletes any one row past its window, which covers every batch it deletes.
