# InsightFlow: a verified model of the event pipeline

InsightFlow takes product events from an SDK through an ingestion API and Kafka into ClickHouse, and
reads them back as KPIs, funnels, anomalies, forecasts and alerts. This project models the parts of it
that have state, failure interleavings or exact arithmetic, and proves what they promise.

To verify: `dafny verify dfyconfig.toml` (Dafny 4.11).

| file | what it models |
|---|---|
| `Events.dfy`, `EventStore.dfy` | the message, the enriched row, the `events` table read through replacement |
| `ConsumerProtocol.dfy`, `Delivery.dfy`, `ConsumerWorker.dfy`, `Rounds.dfy` | the Kafka consumer: every interleaving of polls, flushes, failures, crashes, restarts; the worker object; its loop turn by turn |
| `Kpi.dfy`, `Redelivery.dfy` | the hourly roll-up and its read; the consumer and the roll-up together |
| `Ingest.dfy` | from a posted event to one visible row |
| `RateLimit.dfy` | the token bucket script and the limiter |
| `SdkClient.dfy` | the batching client of the SDK |
| `OrderStatistics.dfy`, `Anomaly.dfy` | quantiles and the two rolling detectors, in exact arithmetic |
| `Text.dfy`, `RegistryNames.dfy`, `Registry.dfy`, `Lookup.dfy`, `Forecast.dfy` | the model registry, its file names, its lookup beside saves in other threads, and the forecast endpoint with its cache |
| `Alerts.dfy`, `AlertEvaluator.dfy` | alert evaluation and cooldown |
| `Funnel.dfy`, `CacheKeys.dfy` | the funnel endpoint and the cache keys of the read API |

Protocols are state machines over their awaits: a step is what happens between two points at which the
program can be interrupted. Objects whose methods update their fields are classes, and each of their
methods is proved to make exactly the steps of the machine. In the machines a failed write may have
landed, wholly or in part, and a crash may come between any two steps.

Three assumptions restrict the runs: two models of one workspace, metric and kind are never saved in the
same microsecond (`Forecast.ReusedTimestampIsStale` says exactly what goes wrong otherwise); the clock of
ClickHouse, which stamps `ingested_at`, never steps back; and the clock of the alert evaluator, which may
jump otherwise, does not step back between the two readings of one evaluation
(`Alerts.StampKeepsDistanceIff`).

## Where the code and its documentation disagree

The model follows the code.

- The sort key of `events` has four columns (infra/clickhouse/init.sql:41), not `(workspace_id, event_id)`
  as docs/architecture.md:59 and docs/ADR-001-clickhouse-vs-timescale.md:24 say. One id under two times is
  two rows (`Ingest.SameIdTwoTimes`), and a message without a parseable time can be shown twice
  (`Delivery.RedeliveryDuplicatesIffUntimed`).
- A failed insert leaves `run` with the exception; the comment at ingestion/app/consumer.py:151 speaks of a
  retry in the next loop, but the only retry is the flush in `finally` (`Rounds.FailedInsertIsRetriedOnce`);
  `Rounds.LoopGoesOnIff` says exactly when there is a next turn.
- docs/architecture.md:56 says batches of up to 1000 rows. A flush inserts the rows that
  waited plus the well-formed messages of its poll (`Rounds.TurnInsertsExactly`): up to 1999
  (`Rounds.InsertOf1999`) and no more (`Rounds.LoopKeepsBufferShort`).
- infra/clickhouse/init.sql:14-15 says that a replay does not double-count. The roll-up is fed before
  replacement and counts every repeated insert (`Redelivery.RedeliveryIsCountedTwice`), so the sentence
  holds exactly for the runs that insert no message again (`Redelivery.RunCountsOnceIff`).
- sdk/src/client.test.ts:78-91 expects a 4xx response not to be retried. The retry loop treats it like any
  other error (`SdkClient.BadRequestIsPostedAgain`); the expectation is met exactly when no retry is left
  (`SdkClient.ClientErrorIsFinalIff`).
- docs/architecture.md:104-106 says that an alert fires if the most recent point is flagged. The evaluator
  acts on the newest flagged point anywhere in the reply (`Alerts.OldFlagFires`, `Alerts.ActsOnAnyFlag`).
- The comment at ingestion/app/producer.py:65-67 speaks of waiting for each send. `send_batch` awaits only
  that each message was queued, so an accepted batch may still lose messages (`Ingest.AcceptedBatchCanLose`):
  an acceptance guarantees that everything arrived exactly for single events (`Ingest.AcceptedIsAppendedIff`).

## Model

| member | source | states |
|---|---|---|
| Events.RaisesIffMalformed | ingestion/app/consumer.py:70-110 | enrichment raises exactly for values it cannot read (no object, or wrongly typed parts) and for messages that lack a workspace, id or name or carry a non-numeric revenue, at any time |
| Events.KeyStableIffTimed | ingestion/app/consumer.py:57-67 | a redelivered message is enriched to the same sort key at all times if and only if its `occurred_at` parses, and then the whole row is the same |
| Events.RowCarriesMessage | ingestion/app/consumer.py:70-110 | column by column, what a row holds: ids, name, user, session, currency and campaign fields copied, the cents or zero, the properties with absent values as empty strings, and each place and device field from the message or else from the lookup of its address or of its user agent; a city is looked up only where the country is |
| Events.RowTime | ingestion/app/consumer.py:57-67 | the row's time is the message's instant less its offset, UTC where it names none, a Z being +00:00, and the clock's where there is no time or it does not parse |
| EventStore.Winner | infra/clickhouse/init.sql:40-41 | the row a reader sees under a sort key is a visible one, and there is none exactly if the key was never inserted |
| EventStore.ViewIsVisibleRows | infra/clickhouse/init.sql:40-41 | the deduplicated table holds one row for every inserted key, the one with the newest `ingested_at`, later inserts winning ties |
| EventStore.MergeIsUnobservable | infra/clickhouse/init.sql:40-41 | dropping a superseded row in the background does not change what a deduplicating reader sees |
| EventStore.ViewIsLastWriter | infra/clickhouse/init.sql:26-41 | with a server clock that does not step back, the view is the last insert of every key |
| ConsumerProtocol.FlushInv | ingestion/app/consumer.py:139-163 | a flush keeps the delivery invariant whether the insert succeeds, fails, or fails after landing any of its rows, and whether the commit succeeds or moves any of its offsets |
| ConsumerProtocol.InsertFailedInv | ingestion/app/consumer.py:150-155 | a failed insert, whatever it left in the table, loses nothing and leaves the buffer exactly the uncommitted rows |
| ConsumerProtocol.CommitFailedInv | ingestion/app/consumer.py:157-161 | a failed commit that moved any of the offsets never commits a message that is not in the table |
| ConsumerProtocol.SkipExact | ingestion/app/consumer.py:178-182 | a malformed message is neither buffered nor pending, and the buffer stays exact |
| ConsumerProtocol.BlockKeepsCurrent | ingestion/app/consumer.py:142-149 | inserting uncommitted rows never lets an older write replace the last write of a committed message |
| ConsumerProtocol.StepInv | ingestion/app/consumer.py:139-198 | every step of the pipeline (produce, start, poll, flush, final flush, crash) keeps the invariant |
| ConsumerProtocol.RunInv | ingestion/app/consumer.py:139-198 | the invariant holds after every run |
| Delivery.CommitsNeverRewind | ingestion/app/consumer.py:157-161 | no run ever moves a committed offset back |
| Delivery.CommittedIsStored | ingestion/app/consumer.py:157-161 | in every reachable state each well-formed message below the committed offset is in the table, so malformed neighbours and failures lose nothing |
| Delivery.LoopTopIsExact | ingestion/app/consumer.py:173-192 | at every loop top the buffer is exactly the rows of the well-formed messages in [committed, position) of each partition, in order, and each pending offset is the last of them |
| Delivery.NeverShownTwice | infra/clickhouse/init.sql:40-41 | in every reachable state the deduplicated table shows a message with a parseable time at most once |
| Delivery.WriterIsNewest | ingestion/app/consumer.py:139-198 | once everything is committed, the row under a key is that of the newest message with this key |
| Delivery.DrainedViewsAgree | ingestion/app/consumer.py:139-198 | two states of the same log with everything committed show the same rows, whatever failed on the way |
| Delivery.OutcomeIgnoresFailures | ingestion/app/consumer.py:139-198 | the same for all reachable states: a run with failures ends showing what a failure-free run shows |
| Delivery.RedeliveryDuplicatesIffUntimed | ingestion/app/consumer.py:57-67 | a message read again after a failed commit and a crash is shown twice if and only if its time does not parse |
| ConsumerWorker.ConsumerWorker.constructor | ingestion/app/consumer.py:114-137 | a new worker is the protocol's freshly started one: position at the committed offsets, nothing buffered or pending |
| ConsumerWorker.ConsumerWorker.Take | ingestion/app/consumer.py:177-184 | one message is enriched and buffered with its offset pending, or skipped if that raises |
| ConsumerWorker.ConsumerWorker.Consume | ingestion/app/consumer.py:176-184 | the two loops over a poll make exactly the protocol's poll step |
| ConsumerWorker.ConsumerWorker.Flush | ingestion/app/consumer.py:139-163 | `_flush` makes exactly the protocol's flush: rows put back after a failed insert, gone after a failed commit with the offsets still pending; the flush time moves only at its very end |
| ConsumerWorker.ConsumerWorker.Turn | ingestion/app/consumer.py:173-192 | one turn polls, buffers, and flushes when 1000 rows are there or rows are there a second after the last flush |
| ConsumerWorker.ConsumerWorker.Run | ingestion/app/consumer.py:169-198 | the whole of `run` is a run of the protocol that ends with the final flush, so everything above holds of it |
| Rounds.TurnKeepsBufferShort | ingestion/app/consumer.py:186-192 | a turn from a buffer below 1000 rows never inserts 2000 or more, and after a normal turn fewer than 1000 are left, none of them a second after the last flush |
| Rounds.LoopKeepsBufferShort | ingestion/app/consumer.py:169-198 | over the whole loop of a fresh worker with legal polls, for every outcome of polls and flushes, every top is reached with fewer than 1000 rows, and neither a turn nor the final flush inserts 2000 |
| Rounds.TurnInsertsExactly | ingestion/app/consumer.py:175-192 | a turn whose insert succeeds inserts nothing while no flush is due and otherwise exactly the waiting rows and the well-formed messages of its poll; it stays within 1000 rows if and only if that sum does |
| Rounds.FlushTimeMoves | ingestion/app/consumer.py:162-190 | the flush time moves to the end of a due flush that inserts and commits, and stays where no flush is due, the poll raises or the insert fails |
| Rounds.InsertOf1999 | ingestion/app/consumer.py:175-192 | from an empty pipeline, two turns that poll 999 and 1000 messages end in one insert of 1999 rows |
| Rounds.LoopGoesOnIff | ingestion/app/consumer.py:150-192 | there is a next turn if and only if the poll did not raise and a due flush neither failed to insert nor, with offsets pending, to commit |
| Rounds.FailedInsertIsRetriedOnce | ingestion/app/consumer.py:150-198 | after a failed insert the only retry is the flush in `finally`, whatever rounds could follow |
| Rounds.FinalFlush | ingestion/app/consumer.py:139-198 | after a failed insert the final flush writes every buffered row, landed ones once more; after a failed commit it writes and commits nothing |
| Rounds.CleanTurn | ingestion/app/consumer.py:173-192 | a turn without failures keeps the worker running and the invariant, and moves it along the log by its poll |
| Rounds.IdleTurnDrains | ingestion/app/consumer.py:186-192 | once everything is read, the first clean turn a second after the last flush leaves nothing uncommitted |
| Rounds.RestartDrains | ingestion/app/consumer.py:169-192 | from every reachable state a worker restarted at any time commits and stores everything in the log in turns the loop can make: polls of at most 1000 messages, flushes only when due, a clock that never runs back, one idle turn a second later |
| Kpi.InsertRepresents | infra/clickhouse/init.sql:66-77 | an inserted block, grouped in any order, keeps the roll-up equal to the aggregate over all rows |
| Kpi.MergeRepresents | infra/clickhouse/init.sql:62-63 | merging any two parts of a cell, wherever they stand, keeps it too |
| Kpi.AlwaysRepresents | infra/clickhouse/init.sql:54-77 | for every cutting of the stream into blocks and every merge order the roll-up answers every selection of cells as the inserted rows would |
| Kpi.HourBound | api/src/events/events.service.ts:110-111 | comparing the stored hour with a bound is comparing the event's time with the bound rounded up to the hour |
| Kpi.ReadIsDirect | api/src/events/events.service.ts:92-129 | the KPI read returns exactly the hour or day buckets that have a row in [ceilHour(from), ceilHour(to)), bounds cut to seconds, each with the aggregate of those rows |
| Kpi.ReadValues | api/src/events/events.service.ts:81-129 | on the rows' own fields: a bucket is answered exactly where a row of the workspace and event falls into its hour or day and the range, and its count is the number of these rows, its revenue the sum of their cents, its users and sessions the sets of theirs |
| Kpi.MetricValues | api/src/events/events.service.ts:81-90 | the value a metric shows of a bucket is the sum of its rows' cents, their number, or the number of their different users |
| Kpi.BucketHolds | api/src/events/events.service.ts:92-94 | a bucket starts at a whole hour or day and holds exactly the times from there to the next |
| Kpi.AdjacentRangesAddUp | api/src/events/events.service.ts:96-129 | the reads of adjacent ranges add up: counts and sums add, user sets unite, in every bucket |
| Redelivery.RollupIsDeduplicatedPlusRepeated | infra/clickhouse/init.sql:66-77 | the stored parts answer any cells with the deduplicated aggregate plus one contribution per superseded row |
| Redelivery.DeduplicatedCountsKeys | infra/clickhouse/init.sql:40-41 | the deduplicated event count is the number of distinct sort keys |
| Redelivery.UniqueUsersUnaffected | infra/clickhouse/init.sql:74-75 | exact unique users and sessions of the stored parts are those of the deduplicated table if rows of one key name one user and session |
| Redelivery.CountsTwiceIff | infra/clickhouse/init.sql:66-77 | the count of the stored parts is the number of distinct events if and only if no two inserted rows of these cells share a sort key |
| Redelivery.RedeliveryIsCountedTwice | infra/clickhouse/init.sql:66-77 | a timed message read again after a failed commit and a crash is one event with a count of two |
| Redelivery.PipelineStepInv | infra/clickhouse/init.sql:66-77 | every step of the consumer, its block grouped into parts in any way, and every background merge keep the parts equal to the inserted rows |
| Redelivery.RollupInEveryRun | infra/clickhouse/init.sql:54-77 | over every run of consumer and merges the count and revenue `kpi_hourly` answers exceed those of the distinct events by exactly the superseded rows |
| Redelivery.UsersInEveryRun | infra/clickhouse/init.sql:54-77 | where messages are timed and those of one key name one user and session, its unique users and sessions are exact |
| Redelivery.ReadInEveryRun | api/src/events/events.service.ts:96-129 | in every bucket of the KPI read count and revenue are those of the distinct events plus the superseded rows, the count is exact if and only if no key of the bucket was inserted twice, and unique users are exact |
| Redelivery.RunCountsOnceIff | ingestion/app/consumer.py:144-161 | with distinct timed messages the roll-up of a run counts every event once if and only if no step of the run inserted a message again |
| Ingest.PayloadIsTimed | ingestion/app/ingest_api.py:20-49 | whatever the API puts on the topic is well formed and timed, and is stored under the workspace with the event's own name, time and id |
| Ingest.ResendKeepsKeyIff | ingestion/app/schemas.py:17-21 | resending an event reproduces its sort key if and only if the event brings its own id and time |
| Ingest.IngestApi.PostEvent | ingestion/app/ingest_api.py:62-104 | a refused request sends nothing; otherwise the stamped payloads reach the workspace's partition in order, all of them for a confirmed single event, any part of them for a batch, and the reply counts the events |
| Ingest.IngestApi.PostLimited | ingestion/app/ingest_api.py:52-104 | a request takes one token per event from the bucket of its API key; it is refused exactly when the limiter does not admit that cost, and then leaves the topic alone |
| Ingest.StoredRowCarriesEvent | ingestion/app/ingest_api.py:20-49 | end to end, in every reachable state: the row of a posted event carries the workspace and the event's user, session, name, revenue, currency, properties and campaign fields, and every country, city, device, os and browser it brings; what it leaves empty comes from the lookup of the caller's address and of the event's `$user_agent` property |
| Ingest.StoredIdAndTime | ingestion/app/ingest_api.py:20-27 | that row's id is the event's own or the drawn one, its time the event's own, in UTC milliseconds, or the API's clock |
| Ingest.LogAfterPost | ingestion/app/producer.py:57-72 | an accepted request puts exactly the payloads whose sends arrived on the workspace's partition, in order |
| Ingest.AcceptedIsAppendedIff | ingestion/app/producer.py:57-72 | an acceptance guarantees for every fate of the sends that all payloads are on the topic if and only if the request held a single event |
| Ingest.AcceptedBatchCanLose | ingestion/app/producer.py:64-72 | a batch of two is accepted while its second payload is not on the topic |
| Ingest.ExactlyOneVisibleRow | infra/clickhouse/init.sql:41 | in every reachable state, whatever is in flight, an event with its own id and time that has reached the table is exactly one visible row, however often it was resent, half sent or redelivered |
| Ingest.CommittedEventIsStored | ingestion/app/consumer.py:157-161 | an event has reached the table as soon as the offset of one of its messages is committed |
| Ingest.DrainedEventIsOneRow | infra/clickhouse/init.sql:41 | once everything is committed, every posted event with its own id and time is exactly one visible row |
| Ingest.DifferentIdsNeverCollapse | infra/clickhouse/init.sql:41 | rows of events with different ids of their own, or of different workspaces, never replace one another, with or without times |
| Ingest.SameIdTwoTimes | infra/clickhouse/init.sql:41 | in every reachable state, one id stored under two times is one visible row if and only if the times agree to the millisecond |
| RateLimit.Script | ingestion/app/rate_limit.py:15-46 | the script refills, takes the cost if it fits, and writes the new bucket |
| RateLimit.RateLimiter.Consume | ingestion/app/rate_limit.py:57-65 | the decision and the stored tokens are those of this identity's own requests since the start |
| RateLimit.TokensAreMinimum | ingestion/app/rate_limit.py:31-41 | for any clocks, stepping back or not, the tokens request i finds are the attained minimum over all j <= i of burst plus rate times the forward clock steps since j minus the cost admitted since j |
| RateLimit.RefusedIffOverBudget | ingestion/app/rate_limit.py:31-41 | for any clocks, request i is refused if and only if from some j <= i on the admitted cost with its own exceeds burst plus rate times the forward clock steps since j |
| RateLimit.ForwardIsElapsed | ingestion/app/rate_limit.py:31 | where no clock steps back, the forward steps of the clock add up to the time between the two requests |
| RateLimit.TokensInRange | ingestion/app/rate_limit.py:31-41 | tokens stay in [0, burst] for any clocks |
| RateLimit.AdmittedWithinBudget | ingestion/app/rate_limit.py:31-41 | for clocks that step back, the cost admitted in any stretch is at most burst plus rate times the forward steps of the clock |
| RateLimit.ExpiryUnobservable | ingestion/app/rate_limit.py:42-43 | with at most 60 s of clock drift while idle, a limiter whose keys expire decides and writes as one that keeps every key |
| RateLimit.GraceIsTight | ingestion/app/rate_limit.py:42-43 | for every positive rate and burst, one millisecond more of drift can change a decision |
| RateLimit.IdentitiesAreIndependent | ingestion/app/rate_limit.py:57-65 | each identity's bucket is what its own requests alone would leave |
| SdkClient.RunInv | sdk/src/client.ts:90-127 | the client's invariant holds after every interleaving of calls, timers and answers, even if cancelling a timer has no effect |
| SdkClient.NothingLostOrReordered | sdk/src/client.ts:90-127 | batches in flush order followed by the queue are the tracked events; queue and waiters are aligned; batches hold 1 to max(1, batchSize) events; a non-empty queue has a live flush timer |
| SdkClient.WaiterGetsItsBatchsResult | sdk/src/client.ts:120-126 | a waiter is settled at most once, with the result of the batch its own event went out in |
| SdkClient.BatchLeavesIff | sdk/src/client.ts:90-127 | a batch leaves in a call of `track` exactly when the queue reaches the batch size, and on a firing timer, `flush` or `close` exactly when anything waits; it takes everything and clears the timer, a timer that cannot be cancelled stays armed, and waiting events keep the timer they have |
| SdkClient.CompletionSettles | sdk/src/client.ts:119-126 | an answer is kept by its batch and given to each of its waiters, to none if the caller's handler threw, and changes no other batch, the queue or a timer |
| SdkClient.FirstSuccess | sdk/src/client.ts:133-150 | the attempt that ends the loop is the first that succeeds |
| SdkClient.Send | sdk/src/client.ts:129-161 | the result is the body of the first attempt within the retries whose status is 200 to 299 and whose body parses, a rejection if there is none; the body is posted up to there or maxRetries + 1 times, with waits that double, each with its jitter of less than `retryBaseMs` |
| SdkClient.AttemptIsMadeIff | sdk/src/client.ts:133-158 | attempt i is made if and only if the retries reach it and no earlier attempt succeeded |
| SdkClient.NextAttemptIff | sdk/src/client.ts:143-158 | on statuses: a 2xx answer with a parsed body is the last attempt; after a network error, any other status or a body that does not parse, there is a next attempt if and only if a retry is left |
| SdkClient.ClientErrorIsFinalIff | sdk/src/client.ts:143-154 | a 4xx ends the loop if and only if no retry is left |
| SdkClient.OnePostForClientErrorIff | sdk/src/client.ts:143-154 | if the first response is a 4xx, the body is posted at most once if and only if there are no retries |
| SdkClient.BadRequestIsPostedAgain | sdk/src/client.ts:143-154 | with three retries, a 400 followed by a 200 is posted twice and succeeds |
| SdkClient.ClientErrorsAreRetried | sdk/src/client.ts:146-154 | a server that always answers 4xx gets every attempt |
| SdkClient.InsightFlowClient.Enqueue | sdk/src/client.ts:90-101 | pushes event and waiter together, then flushes at batchSize or schedules a flush |
| SdkClient.InsightFlowClient.ScheduleFlush | sdk/src/client.ts:103-109 | arms a timer exactly if none is set |
| SdkClient.InsightFlowClient.OnTimer | sdk/src/client.ts:105-108 | a timer, stale or not, clears the field, flushes, and keeps the invariant |
| SdkClient.InsightFlowClient.Flush | sdk/src/client.ts:111-119 | takes queue and waiters as one batch and clears the timer, or does nothing on an empty queue |
| SdkClient.InsightFlowClient.Finish | sdk/src/client.ts:120-127 | the rest of a flush settles exactly the batch's waiters, or none if the caller's `onError` throws |
| SdkClient.InsightFlowClient.Close | sdk/src/client.ts:163-169 | after `close` nothing is queued and no timer is set |
| OrderStatistics.SortIgnoresOrder | forecast/app/services/anomaly.py:94-96 | the order statistics of a window do not depend on its order |
| OrderStatistics.QuantilesOrdered | forecast/app/services/anomaly.py:95-100 | interpolated quantiles of one window are ordered |
| OrderStatistics.QuantileOnPoints | forecast/app/services/anomaly.py:95-100 | on the points in ascending order, the quantile num/4 stands num * (n - 1) / 4 places after the first, between two places in proportion |
| OrderStatistics.QuantileRising | forecast/app/services/anomaly.py:95-100 | quantiles follow y -> a*y+b for a > 0 |
| OrderStatistics.QuantileFalling | forecast/app/services/anomaly.py:95-100 | for a < 0 a quantile becomes the image of its mirror quantile |
| OrderStatistics.QuartilesResist | forecast/app/services/anomaly.py:94-100 | replacing up to floor((w-1)/4) points by anything leaves the quartiles within the bounds of the untouched points |
| OrderStatistics.BreakdownIsTight | forecast/app/services/anomaly.py:94-100 | one more replaced point can push the first quartile below all untouched points, for every window size |
| Anomaly.ZScoreDetect | forecast/app/services/anomaly.py:31-75 | result i is the z-score judgement of point i against the window before it, or no baseline |
| Anomaly.IqrDetect | forecast/app/services/anomaly.py:78-110 | result i is the quartile judgement of point i against the window before it, or no baseline |
| Anomaly.MeanAndVarianceLaws | forecast/app/services/anomaly.py:45-47 | the points deviate by nothing in total from the mean and from no other number, and their squared distances from any number c add up to n times the variance plus n times the squared distance of c from the mean |
| Anomaly.ZScoreOnPoints | forecast/app/services/anomaly.py:45-75 | on the numbers of the series: the expected value is the one from which the w points before deviate by nothing in total; with s their squared distances from it, the point is flagged if it differs at all where s is 0, else if w * d^2 >= threshold^2 * s or the threshold is not positive |
| Anomaly.IqrOnPoints | forecast/app/services/anomaly.py:88-109 | the expected value is the median of the w points before, and the point is flagged exactly outside [q1 - k * (q3 - q1), q3 + k * (q3 - q1)] |
| Anomaly.SquaredTestIsZTest | forecast/app/services/anomaly.py:65-72 | the squared test of the model is \|v - mean\| / std >= threshold for the window's standard deviation |
| Anomaly.ResultsAreCausal | forecast/app/services/anomaly.py:45-75 | a result depends only on its point and the w points before it; it repeats the point's date and value; exactly the first w have no baseline and none of them is flagged |
| Anomaly.ZeroVarianceIffConstant | forecast/app/services/anomaly.py:54-63 | the zero-variance branch is taken if and only if the window is constant, and then flags exactly the points that differ |
| Anomaly.UnitsDoNotMatter | forecast/app/services/anomaly.py:31-110 | under y -> a*y+b with a != 0 both detectors flag the same points and the expected values move along |
| Anomaly.FencesEncloseMedian | forecast/app/services/anomaly.py:95-101 | lower fence <= Q1 <= expected <= Q3 <= upper fence for every window, so a point at the median is never flagged |
| Anomaly.IqrIgnoresOrder | forecast/app/services/anomaly.py:94-101 | the order of the points inside the window does not matter |
| Anomaly.OutliersCannotMask | forecast/app/services/anomaly.py:94-101 | up to floor((w-1)/4) replaced points in the window cannot hide a point that is far enough from the untouched ones |
| RegistryNames.StampOrderIsTimeOrder | forecast/app/services/registry.py:74-76 | stripped ISO stamps, microseconds left out when zero, sort as strings exactly like the times |
| RegistryNames.NamesInvert | forecast/app/services/registry.py:76-124 | the manifest name made by `with_suffix` leads back to its own artifact, and artifacts are not listed as manifests |
| RegistryNames.ManifestOrder | forecast/app/services/registry.py:116 | manifests of one directory sort by kind, ARIMA before Prophet, then by time |
| RegistryNames.PathsDistinct | forecast/app/services/registry.py:74-77 | saves of different place, kind or time write different files |
| RegistryNames.IsoFormatInjective | forecast/app/services/registry.py:74 | a timestamp can be read back from its ISO form |
| RegistryNames.IsoFormatReads | forecast/app/services/registry.py:74 | the ISO form read digit by digit: year, month, day, hour, minute and second in fixed places, the microseconds only where there are any, and +00:00 |
| Registry.StepInv | forecast/app/services/registry.py:63-109 | every step of any number of concurrent saves, finished or crashed, keeps the directory consistent: only complete saves have a manifest that parses (saves of one place and kind carry different timestamps) |
| Registry.LatestIffNewest | forecast/app/services/registry.py:112-138 | after any interleaving of saves and crashes, `latest` finds a manifest if and only if it is that of the newest complete save of the kind, or without a kind of the newest Prophet before any ARIMA |
| Registry.PartialSavesAreInvisible | forecast/app/services/registry.py:79-91 | no step before the end of the manifest changes what `latest` finds, wherever the save stops |
| Registry.FindsNewest | forecast/app/services/registry.py:127-138 | the returned reference carries that newest save's artifact, manifest, workspace, metric, kind, time, hash, error measure and training window |
| Registry.MissingArtifactHidesOne | forecast/app/services/registry.py:122-126 | with the artifact of one complete save deleted, exactly its manifest is passed over |
| Registry.LoadsIffUntouched | forecast/app/services/registry.py:141-148 | a complete save loads back the saved model if and only if its artifact's bytes are unchanged (no hash collision), and is refused otherwise |
| Registry.ModelRegistry.Sha256Of | forecast/app/services/registry.py:55-60 | hashing in chunks of 65536 is hashing the whole file |
| Registry.ModelRegistry.Save | forecast/app/services/registry.py:63-109 | an uninterrupted save writes exactly its two files and returns the matching reference |
| Registry.ModelRegistry.Latest | forecast/app/services/registry.py:112-138 | the loop over manifests in descending order returns the greatest usable one: parseable, of the kind, with an existing artifact |
| Registry.SaveIsItsSteps | forecast/app/services/registry.py:79-91 | the uninterrupted save is the step machine's five steps in a row |
| Forecast.CacheKeyInjective | forecast/app/services/cache.py:18-19 | a cache key determines workspace, metric, kind, horizon and timestamp, although metrics and timestamps may contain colons |
| Lookup.ListingCovers | forecast/app/services/registry.py:116 | the sorted listing holds the manifest of every complete save |
| Lookup.UsableIsNoOlder | forecast/app/services/registry.py:117-137 | a manifest accepted while saves go on is that of a save complete by then, and no save complete at the listing is preferred to it |
| Lookup.SkippedIsNotDone | forecast/app/services/registry.py:117-126 | a manifest that is skipped belongs to no save that was complete at the listing |
| Lookup.QuietLookupIsNewest | forecast/app/services/registry.py:112-138 | if no save completes during the lookup, it finds the newest complete one |
| Lookup.LookupCanMissNewer | forecast/app/services/registry.py:117-121 | beside two concurrent saves of one kind, a lookup can skip the newer and accept the older, which was never the newest complete one |
| Forecast.DirectIsRight | forecast/app/routers/forecast.py:66-114 | without a cache and with no save completing during the lookup the endpoint answers with the forecast of the newest complete save, or 503 exactly if there is none; the two 500 branches cannot be reached while artifacts are untouched |
| Forecast.QuietLookupIsRight | forecast/app/routers/forecast.py:72-79 | where no save completes during a lookup, the outcomes allowed below are that one |
| Forecast.HitIsRight | forecast/app/routers/forecast.py:82-85 | a cache hit is the response of the very save the lookup found |
| Forecast.MoveInv | forecast/app/routers/forecast.py:72-114 | every move of concurrent lookups, requests, saves and evictions keeps cache, pending requests and answers right |
| Forecast.CacheIsUnobservable | forecast/app/routers/forecast.py:66-114 | in every run in which saves of one place and kind carry different timestamps, each answer is the one the cacheless endpoint would have given for the same lookup: the forecast of a save complete by its end to which none complete at its start is preferred, so no finished retrain is hidden |
| Forecast.ForecastCache.Get | forecast/app/services/cache.py:28-34 | returns the entry under the key, or nothing |
| Forecast.ForecastCache.Set | forecast/app/services/cache.py:36-49 | writes the entry under the key and no other |
| Forecast.PostForecast | forecast/app/routers/forecast.py:66-114 | for any disk and cache: 503, the cached response, the load failure, the unknown kind or the computed response, and what is stored: a hit answers the entry, an answer is stored under its key, and no other entry changes |
| Forecast.DirectOutcome | forecast/app/routers/forecast.py:54-114 | for any disk: 503 exactly without a manifest, 500 exactly for an artifact that is gone, changed or unreadable or for an unknown kind, and else the manifest's fields with the forecast of the artifact's model by the library of its kind |
| Forecast.RequestIsItsMoves | forecast/app/routers/forecast.py:72-114 | the endpoint as code is one request's moves with nothing in between |
| Forecast.ReusedTimestampIsStale | forecast/app/services/cache.py:18-19 | if two saves share kind and timestamp, the cached answer is right if and only if both models forecast the same |
| Alerts.FindLastFlagged | api/src/alerts/alert-evaluator.service.ts:98 | the reversed search finds the last flagged point |
| Alerts.ActsOnAnyFlag | api/src/alerts/alert-evaluator.service.ts:98-99 | the evaluator acts on the newest flagged point anywhere; this meets the documented rule if and only if the most recent point is flagged or none is |
| Alerts.OldFlagFires | api/src/alerts/alert-evaluator.service.ts:98-99 | a flagged point followed by a normal one is acted on |
| Alerts.ChosenIff | api/src/alerts/alert-evaluator.service.ts:70-108 | an alert is about to fire with a point if and only if it is not a threshold alert, the service answered, the point is the newest flagged one, and the alert never fired or did so at least its cooldown in seconds ago |
| Alerts.TickTakesEnabled | api/src/alerts/alert-evaluator.service.ts:48-61 | a tick takes up every enabled alert as it stands in the table, once, and no other |
| Alerts.NewFire | api/src/alerts/alert-evaluator.service.ts:101-108 | a fire that passes the cooldown test is a cooldown away from all earlier ones |
| Alerts.StampKeepsDistanceIff | api/src/alerts/alert-evaluator.service.ts:102-110 | a passed test still holds at the later stamp if and only if the clock does not step back in between |
| Alerts.StepInv | api/src/alerts/alert-evaluator.service.ts:48-148 | every step of evaluation, every outcome of its writes, every edit and every crash keeps the invariant |
| Alerts.EditInv | api/src/alerts/alerts.service.ts:43-56 | no user edit at any moment can break the cooldown |
| Alerts.CrashInv | api/src/alerts/alert-evaluator.service.ts:111-145 | a crash at the row, the update or the notification, landed or not, breaks nothing |
| Alerts.FiresAreSpaced | api/src/alerts/alert-evaluator.service.ts:101-145 | in every run any two notifications that went out for an alert, also right before a crash or a failing publish, are stamped at least the cooldown of the later one, and a minute, apart |
| Alerts.RowsAreAccounted | api/src/alerts/alerts.service.ts:73-89 | the rows of an existing alert are its notifications, plus one per step of the run that lost the reply to an insert, failed or lost an update, failed a notification or crashed in between, plus the fire under way; every notification has its row |
| Alerts.ExtraRowsAreFailures | api/src/alerts/alerts.service.ts:73-89 | for any alert, deleted ones included, the rows exceed the notifications by at most those failures and one |
| Alerts.FiresPerSpan | api/src/alerts/alert-evaluator.service.ts:101-108 | in any span L an alert has notifications stamped at most floor(L / cooldown) + 1 times |
| AlertEvaluation.Backend.Create | api/src/alerts/alerts.service.ts:25-41 | a new alert has never fired and has cooldown 3600 and is enabled unless told otherwise |
| AlertEvaluation.Backend.Update | api/src/alerts/alerts.service.ts:43-56 | changes exactly the given fields, never `lastFiredAt`, or reports a missing alert and changes nothing |
| AlertEvaluation.Backend.Delete | api/src/alerts/alerts.service.ts:58-62 | removes the alert with its rows, or reports a missing one and changes nothing |
| AlertEvaluation.Backend.RecordFire | api/src/alerts/alerts.service.ts:73-89 | adds one row to an existing alert, or fails |
| AlertEvaluation.OneIsSteps | api/src/alerts/alert-evaluator.service.ts:70-148 | one uninterrupted evaluation is a run of the step machine |
| AlertEvaluation.EvaluationOutcome | api/src/alerts/alert-evaluator.service.ts:70-148 | what one evaluation leaves by the fate of its writes: the row, `lastFiredAt` and the notification, each with the chosen point and the clock after the test, each only if the steps before it succeeded; without a chosen point nothing changes |
| AlertEvaluation.AlertEvaluator.EvaluateOne | api/src/alerts/alert-evaluator.service.ts:70-148 | every path of `evaluateOne` ends in the machine's state: skipped, not flagged, cooling down, or fired with each write's fate |
| AlertEvaluation.AlertEvaluator.FireAlert | api/src/alerts/alert-evaluator.service.ts:110-147 | row, then `lastFiredAt`, then notification, stopping at the first failure |
| AlertEvaluation.AlertEvaluator.Evaluate | api/src/alerts/alert-evaluator.service.ts:48-67 | a tick while one runs does nothing; otherwise every enabled alert is evaluated, whatever fails before it, and `running` is released |
| Funnel.LevelAtLeast | api/src/events/events.service.ts:185-194 | a user's level is at least k if and only if the first k steps occur in order within the window |
| Funnel.LevelCounts | api/src/events/events.service.ts:217-222 | the level counts are the numbers of users at each level, zero where the query has no row |
| Funnel.SuffixSums | api/src/events/events.service.ts:223-226 | the suffix sums are the numbers of users at that level or further |
| Funnel.Present | api/src/events/events.service.ts:227-232 | each step is given its name, count and share of the first step |
| Funnel.Summarise | api/src/events/events.service.ts:217-232 | `reached` counts exactly the users who went through all steps so far, never rises, and conversions are shares of the first step in [0, 1] |
| Funnel.AtLeastIsReached | api/src/events/events.service.ts:180-197 | those users are the ones with an in-order, in-window prefix of that length |
| Funnel.CountedIffWentThrough | api/src/events/events.service.ts:180-227 | on the rows of the table: a user is counted at a step exactly if different rows of theirs, of the workspace, in the range cut to seconds, are named like the steps up to it, in time order, the last at most windowHours after the first |
| Funnel.DuplicatesUnobservable | api/src/events/events.service.ts:188-193 | with distinct step names, copies of rows change neither who is counted nor any level |
| Funnel.MergeKeepsFunnel | infra/clickhouse/init.sql:40-41 | background replacement of a superseded copy does not move the funnel |
| Funnel.RepeatedStepsCountDuplicates | api/src/events/events.service.ts:178-187 | whenever a step name repeats, there are rows whose duplicates alone complete the funnel, so the condition is exact |
| CacheKeys.KpiKeyInjective | api/src/events/events.service.ts:54 | equal KPI keys mean equal workspace, metric, granularity and bounds |
| CacheKeys.FunnelKeyInjective | api/src/events/events.service.ts:155-170 | equal funnel keys mean equal workspace, window, step list and bounds, although step names may contain colons |
| CacheKeys.KeysNeverClash | api/src/events/events.service.ts:54-170 | a KPI key is never a funnel key |

## Left out

- Prophet, pmdarima, joblib, SHA-256 and JSON: functions without a definition; joblib reads back what it
  wrote, a proper prefix of a manifest does not parse, and model runs are deterministic.
- Kafka, Redis and ClickHouse internals: stated contracts. The log is ordered per partition and is never
  truncated or compacted; scripts are atomic; `uniq` is an exact set.
- A write lands at once or never: a block that ClickHouse stores only after the client has given up (30 s) and
  a restarted worker has inserted it again, which could then replace a newer row of its key, is not modelled.
- What lands in `events` lands in `kpi_hourly`: a failure between the table and its materialized view is not
  modelled.
- A notification is modelled with its stamp; a slow fan-out can send later than it is stamped.
- Consumer groups: one consumer owns each partition; the repository has no rebalance code.
- Rows that ClickHouse rejects for their content (an id that is not a UUID): such an insert fails like any
  other; `Rounds.RestartDrains` speaks of clean inserts.
- Number formats: integers are unbounded and reals exact, so 64-bit overflow and floating-point error are not
  modelled; Lua's fractional tokens are counted in thousandths.
- Alerts.FiresAreSpaced: does not cover an evaluator's clock that steps back between the test and the stamp;
  such a step shortens the gap by as much.
- Missing values (NaN) in a series given to the detectors.
- Identifiers are strings; UUID spelling and Unicode normalisation are not modelled. Workspaces are UUIDs in
  text form, so they contain no colon.
- RateLimit.ExpiryUnobservable: does not cover a rate of 0, for which the script's expiry time is infinite
  and Redis refuses it.
- SdkClient: the SDK does not put an `event_id` on its events, so a resent batch gets new ids unless the
  caller brings them; `Ingest.ResendKeepsKeyIff` says what that means.
- Retention of events (18 months), monthly partitions, pruning of old models (described, not implemented).
- `mv_cohort_daily`, the cohort pivot, `list_models`, threshold alerts beyond being skipped, and the remaining
  metric definitions.
- `windowFunnel` itself: taken as the longest in-order prefix found in different rows inside the window, rows
  of the same time counting as in order.
- Cache lifetimes of the KPI and funnel answers (5 s and 60 s): an answer may be that stale.
- Dates outside years 0000-9999 in cache keys, for which `toISOString` has another form.
- Two alert evaluators at once: the `running` flag guards one process only.
- Metrics with a slash in their name: the registry's directories are named by workspace and metric as given.
- Authentication, API keys, sharing, dashboards, widgets, PDF reports, notifiers, sockets, the front end,
  scripts, load tests and deployment.
