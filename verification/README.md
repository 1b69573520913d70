# Verified model of the iot-otel data plane

This project models four parts of iot-otel and proves what they promise over whole runs.

1. **Chart downsampling.** The Python optimizer gives every sample of a series a
   Douglas-Peucker weight and stores the positive ones; the Go server later answers any
   chart window with the first row, the heaviest rows and the last row. The question a
   chart's user cares about is how far the drawn line can be from a row it leaves out. The
   answer proved here: at most twice the largest stored weight of a row that was left out, and
   the floored values that are sent add less than 0.001. The factor 2 is exact: every smaller
   one fails. The bound is proved after any run of inserts, retention, full and tail passes,
   for any window and any choice among rows of equal weight, for every row whose neighbours
   on the drawn line lie in what one standing pass read.
2. **The batch writer**, as a protocol of producers, a bounded queue and one loop: nothing
   is lost, duplicated or reordered on the way to the database, deadlines are kept, the
   drain at close ends, and it is settled exactly when a close can strand a reading.
3. **The hub**, as a protocol of publishes under a read lock and closes under the write
   lock: no send reaches a closed channel, every publish offers its reading once to each
   subscription it is for, and every attempt is accounted for. Together with the **ingest**
   streams and the writer it forms one system, which also goes through **shutdown**.
4. **The metrics aggregator**: a cache with idle eviction that behaves as if nothing were
   ever evicted.

## How it is organised

| file | content |
|---|---|
| `Chord.dfy`, `SplitTree.dfy` | lines over rank; recursive Douglas-Peucker and its error bounds |
| `CalculateWeights.dfy` | the queue-driven loop, refined to the recursive weights |
| `Tables.dfy`, `Coverage.dfy` | the two tables, their statements, and what runs of them keep |
| `Transactions.dfy`, `TailPass.dfy`, `Optimizer.dfy` | the worker's transaction, when it fails, and the worker as an object |
| `Chart.dfy`, `ChartPoints.dfy` | the chart query, its error bound, and the order of its points |
| `LiveChart.dfy` | the bound for runs made of committed transactions |
| `ChartLimits.dfy`, `LateReadings.dfy` | where the bound stops, and what replayed readings can do |
| `Model.dfy`, `BatchWriter.dfy`, `WriterGuarantees.dfy` | the writer's protocol and its promises |
| `WriterLoop.dfy`, `InsertSql.dfy` | the writer as an object, with its loop; the INSERT it builds |
| `Hub.dfy`, `HubGuarantees.dfy`, `HubService.dfy` | the hub's protocol, its promises, and the hub as an object |
| `Ingest.dfy`, `Server.dfy`, `ServerGuarantees.dfy` | one stream; all streams with writer, hub and shutdown |
| `Aggregator.dfy` | the latest-value cache |

Concurrent code is a state machine whose actions are the ready cases of each select and the
critical sections of each lock; theorems speak of every run. The objects in `WriterLoop`,
`HubService`, `Optimizer` and `Aggregator` update their fields in place; their methods are such
steps, or the loops that make them. The writer's loop runs among other goroutines that step
whenever they can: between any two of its steps it allows for any number of theirs.

## What the proofs found

- A stream with a single row makes `calculate_weights` raise, which rolls back the whole
  transaction for every stream. A full pass commits exactly when no stream is left with one
  row. A tail pass can raise exactly when a heaviest recent row is the stream's newest by id (or
  nothing is weighted and the stream is one row). While readings arrive in time order that
  comes to the same; but a replayed older reading can be the heaviest and the newest at once,
  and then, while no other arrives, every tail pass fails on a stream that full passes handle.
- The chart bound needs the drawn rows around a sample to lie in what one pass read. A full
  pass and the tail pass after it provide that when the row they meet at is drawn. Concrete
  tables show it fail otherwise: for every limit, a window across an undrawn peak is drawn
  worse than the bound; and a replayed older reading stays missed through every tail pass,
  until the next full pass.
- A child interval's error can exceed its parent's by any factor below 2, and by no other, so
  the heaviest rows are not an ancestor-closed set. The bound does not need them to be.
- The comment before `writer.Close` in `main.go` says the queue is final once ingest has
  stopped. That is so after a graceful stop. After a forced stop, which does not wait for
  handlers, a handler still inside `Enqueue` can see its reading accepted and left behind
  although `Close` returns nil. It can happen exactly then, and a run in which it does exists
  for every configuration whose queue can hold a reading.

## Modelling choices

- Values and weights are exact reals; times are integers; counters do not wrap around.
- A missing weight row counts as weight 0. Lines are drawn over sample rank, as the
  optimizer computes weights over `np.arange`.
- The heap is a list from which some minimum is popped; apart from `Compute`, which records
  that its pops were minima, the results hold for any pop order.
- `queueCap` and `maxSize` may be any natural number. With no room in the queue a reading is
  handed straight to the waiting loop; with `maxSize` 0 every batch has one reading.
- Clocks, database outcomes, message arrival, and which ready case a select takes are
  nondeterministic choices.

## Model

| member | source | states |
|---|---|---|
| `SplitTree.GapBound` | db_optimizer/src/app.py:98-114 | For any two samples of a series, if everything strictly between them weighs at most tau, the chord between them misses none of it by more than 2 tau, whatever the split tree looks like |
| `SplitTree.ChildError` | db_optimizer/src/app.py:101-114 | A split's children have errors at most twice its own |
| `SplitTree.ZeroSubtree` | db_optimizer/src/app.py:101-114 | A split has error 0 exactly when its whole subtree weighs 0 |
| `SplitTree.ZeroIsCollinear` | db_optimizer/src/app.py:101-112 | All interior weights are 0 exactly when the samples lie on one line |
| `SplitTree.TwoIsBestPossible` | db_optimizer/src/app.py:101-114 | A factor c below 2 is beaten by some series and gap, and no other is: the bound's constant is exact |
| `SplitTree.ChildFactorIsTwo` | db_optimizer/src/app.py:109-114 | A child interval's error can exceed c times its parent's exactly for c below 2, so heap keys do not bound later weights |
| `SplitTree.StandsOut` | db_optimizer/src/app.py:98-114 | A sample weighs at least half of how far it stands out from its two neighbours, wherever the tree splits |
| `CalculateWeights.HeapPop` | db_optimizer/src/app.py:93 | The popped entry is preceded by no other in tuple order |
| `CalculateWeights.ArgMax` | db_optimizer/src/app.py:108 | The position of the first largest deviation |
| `CalculateWeights.Farthest` | db_optimizer/src/app.py:98-110 | The first interior sample with the largest vertical distance from the straight way between the ends, and that distance; these are the recursive definition's split and error |
| `CalculateWeights.SplitLoop` | db_optimizer/src/app.py:84-115 | The loop makes a possible run of heap-minimum pops and stops only when its guard fails; it returns min(n, limit) samples, ancestor-closed, each with its recursive weight |
| `CalculateWeights.Compute` | db_optimizer/src/app.py:81-118 | With ratio 1 or more the returned array is the recursive weight of every sample; with none or one sample it raises; otherwise the samples the run chose have that weight and all others 0 |
| `CalculateWeights.LargestErrorFirst` | db_optimizer/src/app.py:92-114 | The loop always goes on with a queued interval whose making split had the largest error |
| `CalculateWeights.Limit` | db_optimizer/src/app.py:87 | n times the ratio rounded down, but at least 10 |
| `CalculateWeights.SplitKeepsTiling` | db_optimizer/src/app.py:112-114 | Splitting any queued interval picks an index not chosen before and leaves queued plus dropped intervals exactly the consecutive pairs of chosen indices |
| `CalculateWeights.IterateKeeps` | db_optimizer/src/app.py:92-115 | One iteration, popping any entry, keeps weights, tiling and ancestor-closure, uses exactly one unit of potential, and counts its new index |
| `CalculateWeights.Stopped` | db_optimizer/src/app.py:87-92 | However the loop stops, min(n, limit) samples are chosen, and all of them with their recursive weights if the limit does not bind |
| `CalculateWeights.AnyPopOrder` | db_optimizer/src/app.py:89-115 | For every pop order: at most 2n - 3 iterations, the invariant throughout, and the same final weights |
| `Tables.UpsertAt` | db_optimizer/src/app.py:72-78 | A tail pass leaves the larger of old and new weight, a full pass the new one, and a new weight of 0 leaves the old row in place |
| `Tables.UpsertNeverLowers` | db_optimizer/src/app.py:74-76 | A tail pass lowers no stored weight of any row |
| `Tables.UpsertElsewhere` | db_optimizer/src/app.py:72-78 | Rows outside the series keep their stored weight |
| `Tables.ApplyValid` | db_optimizer/src/app.py:66-78 | Inserting, retention with its cascade, and passes keep ids unique and every weight positive and attached to a row |
| `Coverage.PassCovers` | db_optimizer/src/app.py:140-150 | After a pass every row of its series is stored with at least its split-tree weight, stale rows included |
| `Coverage.StepKeepsCovered` | db_optimizer/src/app.py:66-78 | No insert, retention, tail pass or full pass over another stream takes a row below the weight an earlier pass covered it with |
| `Coverage.RunCovers` | db_optimizer/src/app.py:131-151 | The same over whole runs, from any pass on, full or tail, until a later full pass over its stream |
| `Coverage.SpanIsBlock` | server/internal/sensors/repo.go:20-30 | Between two of its rows a window is a contiguous block of the series of any pass that spans them, whatever retention removed |
| `Optimizer.Worker.RemoveOldData` | db_optimizer/src/app.py:66-69 | Exactly the rows of the last 604,800 seconds stay, with their weights, and every chart window that starts within them is answered as before |
| `Optimizer.Worker.FetchDevices` | db_optimizer/src/app.py:19-22 | Each stream that has rows, once |
| `Optimizer.Worker.FetchTail` | db_optimizer/src/app.py:25-50 | If a row of the stream is weighted: its rows, oldest first, from the id of a row that no other weighted in the 15 minutes before the newest weighted row outweighs; else all its rows |
| `Optimizer.Worker.UpdateWeight` | db_optimizer/src/app.py:72-78 | The weight table becomes the upsert of the series' positive weights |
| `Optimizer.Worker.ProcessStream` | db_optimizer/src/app.py:136-150 | A full pass reads all the stream's rows, oldest first; it raises exactly on a single row; else each row read stores its recursive weight, in a tail pass the larger of that and the old one, a weight of 0 changes nothing, and no other row changes |
| `Optimizer.Worker.ProcessWeights` | db_optimizer/src/app.py:131-151 | A commit is a run of retention and one pass per stream, a failure changes nothing; it fails only if some stream may be read as one row, and must if one can only be; full passes, and tail passes over readings in time order, commit exactly when no stream is left with a single row |
| `Transactions.FetchesAreIndependent` | db_optimizer/src/app.py:135-150 | Each pass of a committed transaction reads what it could have read at the start, never a single row |
| `Transactions.CanFailExactly` | db_optimizer/src/app.py:108-149 | A transaction can fail if and only if some stream can be read as a single row |
| `Transactions.CanCommitExactly` | db_optimizer/src/app.py:135-151 | It can commit if and only if every stream can be read as something else |
| `TailPass.TailRaisesExactly` | db_optimizer/src/app.py:25-44 | In any tables, a tail pass over a stream can raise exactly if its newest row by id is a heaviest recent one, or nothing is weighted and it is a single row; and must raise exactly if no other row is |
| `TailPass.OrderlyRun` | db_optimizer/src/app.py:66-78 | In runs with readings in time order, every weighted row keeps a later row of its stream, through retention and passes |
| `TailPass.OrderlyTransaction` | db_optimizer/src/app.py:135-151 | Then a transaction of tail passes can fail exactly if some stream is a single row, and can commit exactly if none is |
| `Chart.SelectTop` | server/internal/sensors/repo.go:24-26 | Some legal top-N by weight: nothing left out outweighs anything taken |
| `Chart.SortByTime` | server/internal/sensors/repo.go:55-56 | A permutation of the points in ascending time |
| `Chart.SmartFind` | server/internal/sensors/repo.go:20-58 | From the stream's rows between start and end, both included, by time and id: the first, the last and up to limit weighted ones, none lighter than one left out; the points are theirs, with milliseconds and thousandths rounded down, in ascending time |
| `Chart.Floor3Close` | server/internal/sensors/round.go:10-12 | Flooring gives the largest thousandth not above the value, which is less than 0.001 below it |
| `Chart.UnselectedIsLight` | server/internal/sensors/repo.go:24-26 | If at most limit rows of the window weigh more than tau, no row left out does |
| `Chart.WindowBound` | server/internal/sensors/repo.go:20-30 | Whatever is drawn besides the two ends, if no row left out weighs more than eps, the line misses a row whose gap one pass covers by at most 2 eps, and by less than 0.001 more when drawn through floored values |
| `Chart.Lossless` | server/internal/sensors/repo.go:24-30 | When every weighted row is drawn, the line is exact at every such row |
| `Chart.LosslessWindow` | server/internal/sensors/repo.go:24-30 | A window one pass spans, with at most limit weighted rows, is drawn exactly, after any run |
| `Chart.TwoPassesSpan` | db_optimizer/src/app.py:41-44 | Two passes that meet at a drawn row span every gap between them |
| `Chart.ChartBound` | server/internal/sensors/repo.go:36-58 | End to end: after any run, for any window and whatever the query selects, a row is missed by at most twice the largest stored weight left out, if it is drawn or one standing pass spans the drawn rows around it |
| `Chart.OnePassBound` | server/internal/sensors/repo.go:20-30 | If one pass spans the window and at most limit of its rows weigh more than tau, no row is missed by more than 2 tau |
| `LiveChart.WorkerCommits` | db_optimizer/src/app.py:131-151 | A call of the worker that committed is a committed transaction of the run it falls in |
| `LiveChart.TransactionBound` | db_optimizer/src/app.py:131-151 | In any window, also up to now, a row meets the bound if a committed transaction, full or tail, read back to the drawn row before it and nothing as old as the drawn row after it arrived since |
| `LiveChart.LiveChartBound` | server/internal/charts/handlers.go:69-110 | After a full and a later tail transaction, if the row the tail starts from is drawn, every row up to the end of the tail meets the bound |
| `ChartPoints.PointsAreVertices` | server/internal/sensors/repo.go:43-57 | With readings in different milliseconds, the returned points are the selected rows in rank order, each once, with its millisecond and floored value |
| `ChartPoints.ReturnedBound` | server/internal/sensors/repo.go:36-58 | After any run, each row of such a window has its point among those returned, or the line through the two returned points around it misses it by less than twice the largest weight left out plus 0.001, if one pass spans the drawn rows around it |
| `LateReadings.LateReadingStaysMissed` | server/internal/ingest/service.go:28-36 | A replayed older reading before a weighted peak weighs nothing, is left out under every limit and missed, and no tail pass changes that |
| `LateReadings.LatePeakRaises` | db_optimizer/src/app.py:25-44 | A full pass can leave a replayed reading as the only weighted row, after which every tail pass over a stream of three rows raises and no full pass does |
| `ChartLimits.StraddledPeakIsMissed` | db_optimizer/src/app.py:25-44 | For every limit, a run of the worker in time order that meets every premise of `LiveChartBound` except that the tail's first row is drawn: the one possible selection leaves that row out and misses it by more than twice every weight left out |
| `BatchWriter.NextKeeps` | server/internal/storage/batchwriter.go:64-162 | Every step, in any interleaving, keeps order and conservation, size bounds, the timer's coupling to the buffer, and what Close promises |
| `WriterGuarantees.NothingLostInFlight` | server/internal/storage/batchwriter.go:89-145 | Accepted readings are, in order, flushed batches then buffer then queue; batches hold 1 to maxSize; at most queueCap + maxSize are unflushed; each flush is one success, a retry, or two failures |
| `WriterGuarantees.LatencyDeadline` | server/internal/storage/batchwriter.go:92-128 | In the main loop every buffered reading has a running timer due within maxLatency of its arrival |
| `WriterGuarantees.DueMeansFire` | server/internal/storage/batchwriter.go:118-128 | In every run the main loop, open or closed, can take its timer case exactly when a buffered reading has waited maxLatency, it then begins to flush the whole buffer, and the clock alone brings that about |
| `WriterGuarantees.DueIsFlushed` | server/internal/storage/batchwriter.go:126-162 | After that step and two database calls, whatever else happens, every reading that was buffered has been handed to the database |
| `WriterGuarantees.NoEarlyFlush` | server/internal/storage/batchwriter.go:106-142 | In every run the main loop only flushes a full batch or one that holds a due reading, the drain only a full one or, after Close, the last; and no full buffer waits |
| `WriterGuarantees.EnqueueExactly` | server/internal/storage/batchwriter.go:70-75 | Past the first check Enqueue can go on exactly if the queue has room, the loop waits at an empty queue, or the writer is closed; refused only if closed, else its reading comes last |
| `WriterGuarantees.CheckExactly` | server/internal/storage/batchwriter.go:65-69 | The first check lets a producer in exactly if the writer is open |
| `WriterGuarantees.CloseLosesNothing` | server/internal/storage/batchwriter.go:78-87 | When the final flush is over, everything accepted before Close was handed to the database in order, and the queue holds no more readings than producers were past the first closed-check |
| `WriterGuarantees.DrainProgress` | server/internal/storage/batchwriter.go:129-142 | After Close every step but refusals, repeated closes and time uses up a bounded amount of work |
| `WriterGuarantees.BacklogShrinks` | server/internal/storage/batchwriter.go:129-142 | Queue plus producers past the check never grows after Close and falls with every drained reading |
| `WriterGuarantees.LoopNeverStuck` | server/internal/storage/batchwriter.go:118-144 | Until the final flush is over the loop can step without any producer moving |
| `WriterGuarantees.DrainIsBounded` | server/internal/storage/batchwriter.go:129-142 | Any interleaving after Close has at most that many working steps |
| `WriterGuarantees.StrandingExactly` | server/internal/storage/batchwriter.go:64-87 | A close can strand an accepted reading exactly if a producer was between the two selects and the queue has capacity |
| `WriterLoop.Buffered.TryInsert` | server/internal/storage/batchwriter.go:147-162 | One try sends a statement that inserts exactly the buffer into sensor_data, each field into the column of its name; the flush ends at a success or after two tries, emptying buffer and timer |
| `WriterLoop.Buffered.Flush` | server/internal/storage/batchwriter.go:106-117 | Whatever producers do meanwhile, the same batch is tried at most twice, up to the first success, and counts once; buffer and timer are then empty |
| `WriterLoop.Buffered.SelectOnce` | server/internal/storage/batchwriter.go:118-128 | One turn of the main select takes a reading, or flushes the whole buffer because a reading is due, or sees the writer closed; it waits only if none of these is possible |
| `WriterLoop.Buffered.DrainQueue` | server/internal/storage/batchwriter.go:129-142 | After Close the inner loop ends, among racing producers |
| `WriterLoop.Buffered.Run` | server/internal/storage/batchwriter.go:89-145 | The whole loop, among any steps of producers, Close and the clock: it stops with an empty buffer, accepted is flushed then queue, everything accepted before Close is flushed, and what is queued came from producers past the first check |
| `InsertSql.BuildInsert` | server/internal/storage/batchwriter.go:164-178 | A reader that takes table and columns from the statement's text, and each field from the column of its name, gets the batch back |
| `InsertSql.PlaceholdersInOrder` | server/internal/storage/batchwriter.go:172-173 | The placeholders are exactly $1 to $4n in order, four to a row |
| `InsertSql.InsertRoundTrip` | server/internal/storage/batchwriter.go:164-178 | The statement is readable exactly for non-empty batches, and then inserts the batch into sensor_data |
| `Hub.SendIsSafe` | server/internal/hub/hub.go:98-116 | A publish under way only sends to open channels |
| `Hub.NextKeeps` | server/internal/hub/hub.go:53-116 | Every step keeps registration, publishes under way, accounts and counters consistent, without a panic |
| `HubGuarantees.NeverPanics` | server/internal/hub/hub.go:78-116 | In every run: no send on or close of a closed channel, open exactly while registered, no empty subscriber set |
| `HubGuarantees.EveryAttemptAccountedFor` | server/internal/hub/hub.go:98-116 | Received plus buffered readings are the delivered attempts in order, drops are the rest, attempts are for the subscription's device, and the hub-wide counter trails the sum by the increments under way |
| `HubGuarantees.DropsExactlyWhenFull` | server/internal/hub/hub.go:109-115 | In every run a send drops its reading exactly if the buffer holds as many as its capacity and no reader waits; else the reading is received at once or put last |
| `HubGuarantees.OnlySendsDrop` | server/internal/hub/hub.go:82-116 | No other step drops a reading or changes a buffer, but the reader's taking from its front |
| `HubGuarantees.PublishNeverBlocks` | server/internal/hub/hub.go:98-116 | A publish under way can always take a step, whatever its readers do, and has less left to do after each |
| `HubGuarantees.PublishReachesEachOnce` | server/internal/hub/hub.go:98-107 | A finished publish made exactly one attempt to each target and none to others |
| `HubGuarantees.TargetsAreOpenSubscriptions` | server/internal/hub/hub.go:98-107 | Its targets are the subscriptions open when it started that are for its device or for all |
| `HubGuarantees.CleanupAgainIsNothing` | server/internal/hub/hub.go:78-96 | Cleaning up twice is cleaning up once; only that subscription closes, and its buffered readings stay |
| `HubService.Hub.Subscribe` | server/internal/hub/hub.go:53-64 | A new open, empty subscription that publishes for its device reach, and no other; nobody else's reach or state changes |
| `HubService.Hub.SubscribeAll` | server/internal/hub/hub.go:70-76 | The same for publishes of every device, with four times the buffer |
| `HubService.Hub.Unsubscribe` | server/internal/hub/hub.go:82-96 | No publish reaches the subscription again and it is closed with what it buffers; no other changes, and doing it again does nothing |
| `HubService.Hub.Publish` | server/internal/hub/hub.go:98-116 | Every subscriber of the reading's device and every all-device subscriber gets the reading last in its buffer if there is room, and else one drop counted; the others are left alone; and it is a run of protocol steps |
| `Ingest.ValidityCounts` | server/internal/ingest/service.go:92-112 | Valid and invalid messages add up; the readings are those of the valid messages, in order, each with its own message's sensor, value and timestamp, at most a week before and a day after the clock at its receipt |
| `Ingest.Stream` | server/internal/ingest/service.go:61-90 | Enqueues and publishes exactly the valid readings in order up to a refusal, and summarises them at half-close |
| `ServerGuarantees.StreamBooks` | server/internal/ingest/service.go:67-90 | Among any number of streams: accepted is the stream's valid readings less at most one, published is accepted less at most one, all under its device |
| `ServerGuarantees.SummaryIsTrue` | server/internal/ingest/service.go:70-72 | At half-close accepted is what was stored and published, and accepted plus rejected is every message received |
| `ServerGuarantees.OnlyBackpressureHolds` | server/internal/ingest/service.go:67-89 | In every run a stream's handler can go on unless it is in Enqueue, the writer is open, and its queue is full with the loop busy |
| `ServerGuarantees.GracefulShutdownLosesNothing` | server/cmd/iotd/main.go:230-251 | After a graceful stop and a finished close, everything ever accepted was handed to the database |
| `ServerGuarantees.ShutdownLosesExactly` | server/cmd/iotd/main.go:237-251 | Closing the writer can leave an accepted reading behind exactly if a handler is still inside Enqueue, which a graceful stop rules out |
| `ServerGuarantees.LossIsReachable` | server/cmd/iotd/main.go:225-251 | A run from the start that ends with a finished writer and an accepted reading in its queue exists exactly if the queue can hold one |
| `Aggregator.CacheIsLast` | server/internal/metrics/aggregator.go:74-102 | The cache holds exactly the last samples that no observation found idle |
| `Aggregator.EvictionIsInvisible` | server/internal/metrics/aggregator.go:87-102 | One observation at a time: exactly the keys whose last sample is recent enough are emitted, with its value |
| `Aggregator.EvictionShowsExactly` | server/internal/metrics/aggregator.go:87-102 | With overlapping observations a recent enough key is missing exactly if one that read a later clock found it idle first |
| `Aggregator.Gauge.RecordReading` | server/internal/metrics/aggregator.go:82-84 | The latest map gains the sample under its device and sensor, and stays the cache of its history |
| `Aggregator.Gauge.ObserveLatest` | server/internal/metrics/aggregator.go:87-102 | Emits every series whose sample is no older than the idle limit and deletes the others; observed one at a time, these are the last samples ever recorded that are recent enough |

## Left out

- Floating point, NaN and the single-precision weight column: values are exact reals.
- Interpolation over timestamps: weights are computed over rank, so no bound over time is claimed.
- Rows between drawn rows that no single pass read together, such as the newest readings before the next tail pass: the bound is not claimed there, and `ChartLimits` and `LateReadings` show it fail.
- Ties in `received_at` when a series is fetched: the source leaves their order open, the model breaks them by id; coverage holds for any ordered series.
- Readings inserted between the statements of one transaction: a pass's fetch and upsert are separate in runs (`Coverage`), but one `ProcessWeights` call runs undisturbed.
- `LiveChart.LiveChartBound`: one tail transaction after the full one; a longer chain follows row by row from `LiveChart.TransactionBound`.
- A negative LIMIT: the server always passes 1000.
- SQL execution, pandas, numpy and heapq internals, and gRPC, HTTP, SSE and OTel transport.
- The HTTP half of the shutdown, and contexts that cancel `Close` before the final flush.
- Subscriber counts, queue length and dropped-count getters: single reads.
- Sessions, OAuth, tokens, device management, configuration, logging fan-out and templates.
- The device client, and the per-sensor fan-out of `ReadData`.
- `HubService.Hub.Publish`: stated for a publish that nothing interrupts; interleaved publishes are the subject of `Hub` and `HubGuarantees`.
- `Ingest.Stream`: one stream against a writer that refuses from some point on; interleaved streams are the subject of `Server`.
