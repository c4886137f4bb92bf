# Verification of logstream

A Dafny model of the parts of logstream where concurrency, time windows and counting meet, with
machine-checked proofs. `dafny verify dfyconfig.toml` checks everything.

## What is modelled

**Ingestion** (`internal/ingestion/pipeline.go`, `internal/models/log.go`, `BulkInsert` in
`internal/storage/mongo.go`, the shutdown sequence of `cmd/ingestor/main.go`), in two layers.

- *The pipeline as a transition system* (`Protocol`): any number of submitters, a bounded FIFO channel
  of any capacity (0 included, where a send needs a waiting worker), any number of workers with their
  batches, the depth scraper, cancellation, close and the return of `Stop`. A `Submit` is four steps
  (validate, read the clock, critical section, non-blocking send) and a flush is two (enter and leave
  `BulkInsert`), so other goroutines act in between. A run is *any* sequence of steps; a step that is
  not enabled does nothing, so every theorem about `Run(cfg, steps)` is about every interleaving.
  `Enablement` shows the converse: each move the code can make is possible, in any state of the others.
  The `log` of a state is history that the code does not keep.
- *The sequential code over mutable state*: `Ingestion.Pipeline` (`Submit`, `SubmitBatch`, the sweeping
  loop) and `Batching.Worker` (the loop over a reused array, with Go's `append` and the copy made by
  `BulkInsert`). `Guarantees.UninterruptedSubmit` and `WorkerRefinement.WorkersRunTheLoop` connect
  them to the transition system.

**Queries** (`internal/storage/mongo.go`): the stages of the aggregation pipelines as relations (groups
come out in any order, sort ties fall in any order), the decoding loops as methods on decoded BSON
values, and the filter that `Query` builds.

**Alerting** (`internal/alert/dispatcher.go`, `WatchErrors`): the rule slice, `refreshRules`, `evaluate`
and `fire` as a class whose `Evaluate` lets refreshes happen between any two rules and whose history
holds the posts handed to the circuit breaker, and the producer, channel, consumer and refresher as a
transition system.

Parameters that stand for the outside world: clock readings, the resolution of every `select`, the
outcome of every bulk insert (success, a list of write errors, or an error of the whole call that may
leave any subset stored), regular expressions (which patterns compile and what they match), the order
in which the server returns groups and ties, the change feed, and whether a post succeeds.

## What the code does, where its documentation says otherwise

- The clock is read before the dedupe mutex is taken (`internal/ingestion/pipeline.go:192-193`), so
  readings can reach the map out of order. With readings at most `lag` seconds late the 300 s window
  shrinks to 300 - lag, and no less can be promised (`WindowBoundsAreTight`). Suppression can last 360 s.
- A key is recorded before the send is attempted, so the "at-least-once" of the comment at
  `internal/ingestion/pipeline.go:82` holds only conditionally. A keyed event enters the channel exactly
  when there is room; if there is none, a retry is answered "accepted" and enqueues nothing exactly if no
  sweep since the first call, the retry's own included, came more than 300 s after it
  (`WhenRetryIsSwallowed`; for a retry that comes next, `WhenNextRetryIsSwallowed`). Over runs, the
  answer "accepted" means that an event with the key was enqueued unless it answers a duplicate and an
  admission of the key in the 360 s before was dropped or is still to be sent (`TrueMeansEnqueued`), and
  a key never enters the channel exactly if every admission of it was dropped or is still to be sent
  (`EnqueuedKeys`).
- A failed bulk insert empties the batch like a successful one: hand-over happens exactly once, never
  again.
- `Stop` drains completely if the context is still live (`LiveDrainIsComplete`). But with the depth
  scraper running it cannot return until the context is cancelled (`StopWaitsForCancel`), and the
  ingestor's `main` cancels first, after which `Stop` can return with the whole channel lost
  (`CancelFirstMayLoseTheQueue`). Draining is then guaranteed exactly when the channel is empty at that
  moment (`DrainGuarantee`).
- "Any FATAL event always alerts" (`internal/alert/dispatcher.go:142`) holds only conditionally. A post
  is attempted exactly when dispatch is enabled and either no rules are installed and a webhook is
  configured, or a matching rule has a webhook, its own or the configured one (`WhenFatalAlerts`). One
  rule for another service (`FatalMayBeSilent`) or a missing webhook (`FatalWithoutWebhook`) keeps it
  silent, and so does disabled dispatch, where every call of `fire` is counted as a fired alert although
  nothing is sent (`Alerts.Dispatcher.Fire`).
- `BucketByMinute` keeps the *oldest* 120 occupied minutes, and then no longer adds up to the total of
  `AggregateStats` (`PipelinesAgree`).

## Model

| member | source | states |
|---|---|---|
| Models.Validate | internal/models/log.go:50-67 | succeeds exactly on acceptable events; then only a missing timestamp changes, to the current time, and the event is admissible |
| Models.ValidatesExactly | internal/models/log.go:12-67 | exactly the events with service, source and message and a level among DEBUG, INFO, WARN, ERROR and FATAL validate; the others fail with the first requirement they miss |
| Models.ClockSeconds | internal/ingestion/pipeline.go:192 | a clock reading is k exactly in the k-th second of 1_000_000_000 ns after the start of 1970 |
| BulkInserts.CreditVersusStored | internal/storage/mongo.go:159-174 | the returned count never exceeds the documents stored, and equals them exactly when no whole-call error left any and the write errors name distinct documents of the batch |
| BulkInserts.StoredExactly | internal/storage/mongo.go:144-174 | the collection gets, in order, exactly the documents that have no write error, and after a whole-call error those the server kept |
| BulkInserts.StoredIsSubBag | internal/storage/mongo.go:144-151 | only documents of the batch are stored, none more often than it occurs there |
| Dedupe.CacheIsRememberedHistory | internal/ingestion/pipeline.go:188-212 | for every history with readings at most 300 s out of order: a key is in the lazily swept map iff its latest admission is no older than 300 s at the latest sweep, and the stored value is its time |
| Dedupe.CheckExactly | internal/ingestion/pipeline.go:188-212 | entry by entry: a sweep is due after more than 60 s and removes entries older than 300 s; a key passes iff it is empty or not in the map after that, and is then stored with its time |
| Dedupe.VerdictsMatch | internal/ingestion/pipeline.go:192-211 | the verdict on every call is that of a specification that never forgets a call |
| Dedupe.AdmissionsAreSpaced | internal/ingestion/pipeline.go:197-211 | two admissions of one key are more than 300 - lag seconds apart |
| Dedupe.SuppressionIsRecent | internal/ingestion/pipeline.go:197-211 | a suppressed call has an admission of its key at most 360 s before it |
| Dedupe.WindowBoundsAreTight | internal/ingestion/pipeline.go:192-211 | both bounds are attained, for every lag up to 300; a sweep is due after 61 s and then lets an expired key pass that would have been suppressed |
| Dedupe.AdmissionRate | internal/ingestion/pipeline.go:192-211 | one key passes at most floor(L / (301 - lag)) + 1 times in a closed interval of L seconds |
| Batching.TurnConserves | internal/ingestion/pipeline.go:152-169 | one iteration passes its event on in order; a receipt flushes exactly when the batch reaches BatchSize, every other arm leaves the batch empty, only the closed and done arms return, and a flush is recorded with its own outcome |
| Batching.WorkConserves | internal/ingestion/pipeline.go:123-170 | for every sequence of select outcomes: flushed batches followed by the held batch are the events taken, in order; flushes hold 1 to BatchSize events; a batch is never full when an iteration begins and is empty on return |
| Batching.Store.BulkInsert | internal/storage/mongo.go:139-174 | copies the batch into a slice of its own, leaves earlier slices alone, and returns the count and error of each of the three outcomes; an empty batch does nothing |
| Batching.Worker.constructor | internal/ingestion/pipeline.go:126-128 | a worker starts with an empty batch in a buffer of capacity BatchSize |
| Batching.Worker.Append | internal/ingestion/pipeline.go:162 | appends in place while there is room, never touching a slice already handed over |
| Batching.Worker.FlushNow | internal/ingestion/pipeline.go:130-150 | hands the held batch over once, credits the returned count, empties the batch whatever the outcome |
| Batching.Worker.Accept | internal/ingestion/pipeline.go:157-165 | the receiving arm keeps the invariant, flushes at the batch size and never replaces the buffer for a positive batch size |
| Batching.Worker.FlushPartial | internal/ingestion/pipeline.go:154-167 | the tick, closed and done arms flush what is held and leave as specified |
| Batching.Worker.Run | internal/ingestion/pipeline.go:123-170 | the array loop hands the driver exactly the batches of the specified loop, accounts for them, and for a positive batch size never outgrows its buffer |
| Ingestion.BatchStep | internal/ingestion/pipeline.go:73-92 | one more Submit extends the closed form of a batch by one event |
| Ingestion.Pipeline.Sweep | internal/ingestion/pipeline.go:197-205 | the deleting loop keeps exactly the entries not older than the cutoff, in whatever order it visits them |
| Ingestion.Pipeline.CheckAndStoreDedup | internal/ingestion/pipeline.go:188-212 | the map, the sweep time and the verdict are those of the dedupe specification; and, written out: a sweep after more than 60 s removes what is older than 300 s, and the key is new iff it is empty or not left in the map |
| Ingestion.Pipeline.Submit | internal/ingestion/pipeline.go:73-92 | validate, then dedupe, then send: new state and result in each case |
| Ingestion.Pipeline.SubmitBatch | internal/ingestion/pipeline.go:94-105 | enqueues exactly the first min(free, fresh) fresh events in order; ok = duplicates + those, bad = invalid + the rest; the cache does not depend on the channel |
| Ingestion.FixedClockFreshness | internal/ingestion/pipeline.go:188-212 | with one clock reading, fresh means valid with an empty key, or a key neither remembered nor used earlier in the batch |
| Ingestion.FixedClockBatch | internal/ingestion/pipeline.go:94-105 | so the fresh events of a batch are its first events per key, in order |
| Ingestion.WhenRetryIsSwallowed | internal/ingestion/pipeline.go:81-91 | a keyed event that is not remembered is enqueued iff there is room, and dropped otherwise; after any submissions of other keys, a retry of it is reported accepted without being enqueued iff no sweep since, its own included, came more than 300 s after the first call |
| Ingestion.WhenNextRetryIsSwallowed | internal/ingestion/pipeline.go:81-91 | for a retry that comes next: iff it comes at most 300 s after the first call or at most 60 s after the latest sweep |
| ProtocolInvariants.KeepsInv | internal/ingestion/pipeline.go:55-212 | every step of every goroutine keeps order, batch sizes, shutdown conditions, conservation, accounts, validity, cache replay, the fate of each admission and the admission behind each keyed event enqueued |
| ProtocolInvariants.RunInv | internal/ingestion/pipeline.go:55-212 | so every state of every run satisfies them |
| Enablement.SubmitIsPossible | internal/ingestion/pipeline.go:73-80 | an idle submitter may submit any event until the close, in any state of the others |
| Enablement.SubmitterMayMove | internal/ingestion/pipeline.go:81-91 | a Submit under way may always go on: read the clock as it is, run its critical section within the allowed lag, enqueue if there is room and drop if there is none |
| Enablement.ReceiveIsPossible | internal/ingestion/pipeline.go:157-165 | with the channel open or closed, a worker in the select may receive the front of a non-empty channel; the state afterwards in full |
| Enablement.HandOffIsPossible | internal/ingestion/pipeline.go:85-87 | without a buffer a send may meet a worker in its select |
| Enablement.InsertMayEnd | internal/ingestion/pipeline.go:135-149 | a bulk insert may end with every outcome, at any time; the state afterwards in full |
| Enablement.TickMayFlush | internal/ingestion/pipeline.go:166-167 | at any time the ticker may flush a batch that is not full, with every outcome, and the worker is back in its select with an empty batch |
| Enablement.TurnIsPossible | internal/ingestion/pipeline.go:152-169 | the converse of the refinement: whichever arm of the select is ready and however its bulk insert ends, the worker may complete that iteration of the sequential loop, in any state of the others |
| Enablement.SurroundingsMayMove | internal/ingestion/pipeline.go:107-116 | time may pass and the context be cancelled at any moment, the channel be closed when no Submit is under way, the scraper leave once cancelled, and Stop return once all have left |
| Guarantees.NothingLostOrReordered | internal/ingestion/pipeline.go:85-170 | for every W and interleaving: the enqueue order is a shuffle of the workers' receipts followed by the queue, and each worker's receipts are its flushed batches, in order, followed by its batch |
| Guarantees.BatchSizes | internal/ingestion/pipeline.go:126-165 | every bulk insert of every run gets 1 to BatchSize events; one caused by a receipt gets exactly BatchSize |
| Guarantees.Conservation | internal/ingestion/pipeline.go:74-150 | submits = rejected + duplicates + dropped + enqueued + in flight; enqueued = queue + batches + in bulk insert + handed over, as multisets and as counts; handed over = accepted + uncredited |
| Guarantees.EndToEnd | internal/ingestion/pipeline.go:135-149 | stored documents are a sub-multiset of the enqueued events, all valid and stamped; accepted never exceeds them, with equality exactly when every flush was exact |
| Guarantees.CacheOverRuns | internal/ingestion/pipeline.go:188-212 | in every reachable state the map is exactly the remembered admissions |
| Guarantees.SpacingOverRuns | internal/ingestion/pipeline.go:192-211 | two admissions of one key in a run, by any submitters, are more than 300 - lag seconds apart |
| Guarantees.RateOverRuns | internal/ingestion/pipeline.go:192-211 | the admission rate bound for every run |
| Guarantees.ReturnTells | internal/ingestion/pipeline.go:73-92 | Submit returns true in exactly the steps that enqueue its event or find it a duplicate, and false in exactly those that reject or drop it |
| Guarantees.TrueMeansAdmitted | internal/ingestion/pipeline.go:81-91 | when Submit returns true for a keyed event, its key was admitted at most 360 s ago, possibly now, and that event is enqueued, counted as dropped, or about to be sent |
| Guarantees.EnqueuedKeys | internal/ingestion/pipeline.go:81-91 | in every state, an event with a given key was ever enqueued iff some admission of the key was; so never iff every admission of it was dropped or is pending |
| Guarantees.TrueMeansEnqueued | internal/ingestion/pipeline.go:81-91 | a returned true for a keyed event means an event with that key was enqueued, unless it answers a duplicate and an admission of the key in the last 360 s was dropped or is pending |
| Guarantees.UninterruptedSubmit | internal/ingestion/pipeline.go:73-92 | the four steps of a Submit run without interference leave the state of the sequential Submit and return its value, exactly once |
| WorkerRefinement.WorkersRunTheLoop | internal/ingestion/pipeline.go:123-170 | in every state of every run each worker is where the sequential loop is after that worker's own iterations, or inside its next flush (Enablement.TurnIsPossible is the converse) |
| NonInterference.RunLooksLikeSchedule | internal/ingestion/pipeline.go:73-91 | the dedupe map, calls and verdicts of a run are those of the dedupe cache on its own, shown only the keys of the keyed valid submissions, their clock readings and the order of the critical sections |
| NonInterference.DedupeIgnoresTheRest | internal/ingestion/pipeline.go:73-91 | two runs that agree on those have equal dedupe maps, calls and verdicts, whatever their capacity, workers, lag, invalid and unkeyed submissions, sends, drops, cancellation and close |
| Shutdown.ClosedStep | internal/ingestion/pipeline.go:107-116 | after the close every step of any goroutine leaves the measure of remaining work no larger, and every working step makes it smaller |
| Shutdown.DrainIsBounded | internal/ingestion/pipeline.go:107-116 | a closed pipeline takes at most that many working steps, in every continuation |
| Shutdown.DrainNeverBlocks | internal/ingestion/pipeline.go:152-169 | while a worker lives, a working step is enabled that does not need cancellation |
| Shutdown.DrainCompletes | internal/ingestion/pipeline.go:107-116 | from every closed state all workers can return without cancellation, in at most that many steps |
| Shutdown.CatchUpIsPossible | internal/ingestion/pipeline.go:152-169 | from every reachable open, live state with a worker, the workers can hand over everything enqueued exactly once, without close or cancellation |
| Shutdown.GracefulStop | internal/ingestion/pipeline.go:107-116 | from every reachable open, live state with idle submitters, a worker and no scraper, Stop can return with the channel empty and everything handed over exactly once |
| Shutdown.ResidueIsQueue | internal/ingestion/pipeline.go:152-169 | when all workers have returned, in either order of shutdown, no batch is left, everything taken was handed over exactly once and in order per worker, and the rest is a suffix of the enqueue order of at most BufferSize events |
| Shutdown.LiveDrainIsComplete | internal/ingestion/pipeline.go:107-116 | with a live context and at least one worker, that rest is empty |
| Shutdown.ExactlyOnceDelivery | internal/ingestion/pipeline.go:107-170 | after a live drain the collection holds each enqueued event exactly as often as it was enqueued, if and only if no bulk insert left a document out |
| Shutdown.NoWorkersNoDrain | internal/ingestion/pipeline.go:56-59 | with no workers Stop returns and strands the queue, so the condition on W is needed |
| Shutdown.StopWaitsForCancel | internal/ingestion/pipeline.go:172-183 | with the scraper running, Stop has returned only in states where the context is cancelled |
| Shutdown.StopWithoutScraperDrains | internal/ingestion/pipeline.go:107-116 | when Stop has returned all workers have, and without cancellation everything was handed over |
| Shutdown.DrainGuarantee | internal/ingestion/pipeline.go:153-161 | once cancelled and closed, every continuation hands over everything if and only if the channel is empty then |
| Shutdown.CancelFirstMayLoseTheQueue | cmd/ingestor/main.go:125-126 | from every reachable state with idle submitters, cancel-then-Stop has a run in which Stop returns and the whole channel is lost |
| Sorting.TopSelects | internal/storage/mongo.go:242-243 | whatever the order of ties, sort and limit return exactly min(limit, n) elements, sorted, none beaten by one left out |
| Queries.BuildQuery | internal/storage/mongo.go:178-207 | the filter document selects exactly the events the request asks for, written out field by field for every combination; the limit is the requested one if in 1..5000, else 200 |
| Queries.FilterMeansWanted | internal/storage/mongo.go:179-198 | a filter with one condition per requested field means the conjunction of the requested tests |
| Queries.TopK | internal/storage/mongo.go:205-219 | exactly min(k, matches) stored events, each wanted, newest first, and no wanted event left out is strictly newer than a returned one |
| Queries.SomethingIsFound | internal/storage/mongo.go:205-219 | such a result exists for every collection |
| Aggregation.MatchedExact | internal/storage/mongo.go:236 | the match stage keeps every event from `since` on, as often as it occurs, and no other |
| Aggregation.MinuteIsInterval | internal/storage/mongo.go:307-309 | the group of a minute holds exactly the events of the sixty seconds from it, so the groups are disjoint |
| Aggregation.ErrorsAreTwoLevels | internal/storage/mongo.go:311 | the error sum of any documents is the number of ERROR plus the number of FATAL events |
| Aggregation.TallyCounts | internal/storage/mongo.go:236-241 | a group's sum over the matched documents is the number of stored documents that it stands for |
| Aggregation.KeptRows | internal/storage/mongo.go:239-244 | distinct groups sum to at most the whole, and to the whole exactly when no group is left out |
| Aggregation.GroupIsNotEmpty | internal/storage/mongo.go:239-241 | a key has a positive count exactly when it occurs |
| Aggregation.ReorderedGroups | internal/storage/mongo.go:240-243 | reordering the rows of a group stage keeps them a grouping |
| Dashboard.CountDecodes | internal/storage/mongo.go:399-409 | a count sent in any of the server's number types decodes to itself |
| Dashboard.NumbersTruncate | internal/storage/mongo.go:399-409 | integers are kept, floats truncated towards zero, anything else is 0 |
| Dashboard.DecodeGroups | internal/storage/mongo.go:274-296 | the decoding loop's map and error count, on any items, are those of Decoded and DecodedErrors, which DecodedExactly writes out |
| Dashboard.DecodedExactly | internal/storage/mongo.go:274-296 | item by item: a document sets the entry of its name, those named ERROR or FATAL count as errors, other items are skipped |
| Dashboard.LevelsDecode | internal/storage/mongo.go:274-285 | on any group order: one exact count per occurring level, and the error count is the sum of the error flags |
| Dashboard.ServicesDecode | internal/storage/mongo.go:290-297 | min(20, services) services with exact counts, each at least as large as any omitted one |
| Dashboard.AggregateStats | internal/storage/mongo.go:233-299 | on every result the pipeline may return, as counts of stored documents from `since` on: the total, each occurring level, ERROR plus FATAL over the total, and at most 20 services, none with fewer events than an omitted one; on no result, zeros |
| Dashboard.StatsAddUp | internal/storage/mongo.go:235-297 | levels sum to the total, the error rate is in [0,1], services sum to at most the total with equality exactly when at most 20 occur |
| Dashboard.BucketByMinute | internal/storage/mongo.go:303-338 | as counts of stored documents from `since` on: whole minutes, ascending, at most 120, each with its events and its ERROR and FATAL events; left out only what is later than 120 shown minutes |
| Dashboard.PipelinesAgree | internal/storage/mongo.go:234-315 | for the same events the buckets sum to the total exactly when at most 120 minutes are occupied, and then their errors are those behind the error rate |
| Dashboard.SomeFacet | internal/storage/mongo.go:235-246 | the facet pipeline has a result on every collection |
| Dashboard.SomeBuckets | internal/storage/mongo.go:304-315 | so has the minute pipeline |
| Alerts.CompileExact | internal/alert/dispatcher.go:111-128 | the installed rules are exactly the enabled stored rules whose patterns compile |
| Alerts.InstalledInOrder | internal/alert/dispatcher.go:111-128 | the installed rules are a subsequence of the stored ones, in stored order: the places of exactly the enabled rules whose pattern is absent or compiles |
| Alerts.FiredExactly | internal/alert/dispatcher.go:142-160 | rule by rule in installed order: a rule fires exactly if its service, level and pattern tests, on the fields, are each absent or hold; on no rules a FATAL event fires the default and any other event nothing |
| Alerts.AlertsExactly | internal/alert/dispatcher.go:111-160 | from stored rules to firing: exactly the enabled rules whose service, level and compiling pattern match, or the default for a FATAL event when no stored rule can be installed |
| Alerts.WhenFatalFires | internal/alert/dispatcher.go:142-160 | fire is called for a fatal event exactly when no rules are installed or one matches |
| Alerts.WhenFatalAlerts | internal/alert/dispatcher.go:142-189 | a post is attempted for a fatal event exactly when dispatch is enabled and either no rules are installed and a webhook is configured, or a matching rule has a webhook, its own or the configured one |
| Alerts.RequestMembers | internal/alert/dispatcher.go:178-189 | a post is among those for an event iff dispatch is enabled and it goes to the webhook of a rule that fires, or without one to the configured webhook, if that is set |
| Alerts.PostedExactly | internal/alert/dispatcher.go:178-189 | alert by alert in order: posted to the rule's own webhook, without one to the configured one, and without either nowhere |
| Alerts.FatalMayBeSilent | internal/alert/dispatcher.go:142-160 | with a single rule for any other service installed, a fatal event fires nothing |
| Alerts.FatalWithoutWebhook | internal/alert/dispatcher.go:142-185 | with no rules and no webhook, fire is called for a fatal event but nothing is posted, and nothing is counted unless dispatch is disabled |
| Alerts.Dispatcher.RefreshRules | internal/alert/dispatcher.go:111-135 | installs a fresh slice of the compiled rules in load order; a load error changes nothing |
| Alerts.Dispatcher.Fire | internal/alert/dispatcher.go:162-200 | disabled: counts and posts nothing; no webhook: neither; otherwise hands one post to the breaker, for the rule's own webhook if it has one and else for the configured one, and counts iff it succeeds; earlier posts stay as they were |
| Alerts.Dispatcher.Consider | internal/alert/dispatcher.go:149-158 | one iteration of the loop fires the rule exactly if its three tests, on the fields, are each absent or hold |
| Alerts.Dispatcher.Evaluate | internal/alert/dispatcher.go:137-160 | with refreshes between any two rules, fires exactly what the snapshot taken at the start prescribes, in order, posts exactly those that have a target, and counts those posted with success, or all when disabled |
| AlertStream.StreamIsOrderedAndBounded | internal/storage/mongo.go:342-375 | received ++ channel ++ in hand = the relevant decodable inserts read so far, with at most 256 buffered; before cancellation nothing is lost, afterwards the received events are still a prefix |
| AlertStream.StreamedExactly | internal/storage/mongo.go:343-366 | change by change in feed order: exactly the inserts of ERROR and FATAL events that decode are streamed |
| AlertStream.ReceivedExactly | internal/storage/mongo.go:343-372 | in every run, every event received came from such an insert, and every such insert that was read is received, in the channel or in the producer's hand |
| AlertStream.SnapshotFiring | internal/alert/dispatcher.go:83-160 | for every interleaving the fire log is the concatenation, over events, of what one installed rule set prescribes, and installations are used in order |
| AlertStream.LatestRulesFire | internal/alert/dispatcher.go:96-160 | that rule set is the one of the last refresh before the evaluation read the rules, or none before the first refresh |
| AlertStream.ProducerMayMove | internal/storage/mongo.go:359-372 | the producer may read the next change, send while fewer than 256 events are buffered, give up on a cancelled context, and end with the stream |
| AlertStream.ConsumerMayMove | internal/alert/dispatcher.go:83-93 | the consumer may receive what is buffered, read the rules as they are, and return on cancellation or on the closed and empty channel |
| AlertStream.RefresherMayMove | internal/alert/dispatcher.go:96-133 | rules may be refreshed and the context cancelled at any moment |
| AlertStream.DeliveryIsPossible | internal/storage/mongo.go:359-372 | while producer and consumer live, every relevant change of the feed can still be evaluated, without cancelling and against the rules now installed |

## Left out

- Submitting after or during the close: the code panics there; the model makes "no Submit in flight or later" the condition of closing.
- Models.Validate: returns the stamped copy instead of writing through the pointer, because the only caller passes its own copy.
- Event fields that no modelled code inspects (trace, span, host, environment, tags, free-form fields) are one opaque field.
- Negative BatchSize and BufferSize and non-positive FlushMillis, on which Go panics at start; tick times, so ticks happen at any moment.
- Weak memory: the counters and the mutex-protected map are updated atomically, as sync/atomic and sync.Mutex provide.
- The ten-second timeout of a flush is one of the ways a bulk insert may end; its duration is not modelled.
- Alerts.Dispatcher.Evaluate: refreshes are interleaved between the rules of one evaluation; the goroutine of `rulesRefresher` and the loops of `Run` and `WatchErrors` are modelled as steps of AlertStream, without the aliasing of slices.
- Dashboard.BucketByMinute: the formatted `ts` string, which depends on the Go type the driver decodes dates to; the row keeps the decoded value.
- Millisecond rounding of stored timestamps, floating-point rounding of the error rate (a real here), overflow of 64-bit counters, and clocks before 1970.
- MongoDB itself (connection, indexes, time-series collection, TTL, sharding), the circuit breaker's states, HTTP handlers, configuration, logging, Prometheus metrics other than the alert counter, the Slack payload, the load generator and the demo.
- Alert `Threshold`, `WindowSecs` and `Channel`, which the dispatcher never reads.
- README features without code: resume tokens, Redis cache, Kafka, materialised views, request-level idempotency.
