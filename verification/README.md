# Metrics overseer: a verified model

The metrics overseer is an agent that accumulates counters and gauges and reports them to a server, which keeps them
in memory, in memory with a file snapshot, or in an SQL table. This project models the agent's two-phase delivery, the
server's three stores with their batches, snapshots, transactions and retries, and three self-contained pieces of the
same repository: the linter against panics, the generator of `Reset` methods and the pool of resettable objects. Where
the Go code changes objects in place the model does too, with slices as shared backing arrays, counters behind
pointers and objects owned by maps; each such method is proved against a function on values, and the properties are
proved about those functions over all runs.

One file is one module:

| module | what it holds |
|---|---|
| Int64 | wrapping 64-bit addition |
| Model | the metric object and the text its hash is taken of |
| Accumulation, History | the accumulator on the heap and on values; what it took in and gave out over all call sequences |
| Acceptance | what an accumulator accepts, holds and answers, read off the calls made on it |
| Reporting | the batch executor, and the worker pool as a transition system of goroutines and bounded channels |
| AgentStorage | the accumulator objects by ID, none reaching into another |
| Reporter | one report over them: stage all, send, commit or roll back |
| MemStore, Service | the in-memory store; batches against single deliveries |
| FileStore | the snapshot file: writing, reading, write-through |
| DbStore, Retrying | the SQL table with transactions, faults and retries; the retry loop and its delays |
| DbRuns | runs of updates on it under any faults |
| Delivery | all of the counter's path in one system: pollers, reporter, either executor, server, other clients; what each step keeps |
| DeliveryRuns, DeliveryContents | the runs of that system; what their metrics hold, in terms of the polls |
| NoRageQuit, ResetGenerator, ObjectPool | linter, generator, pool |

The main results:

- In every state of every interleaving of polls, staging, request handlings, answers, commits, rollbacks and other
  clients' updates, what was accepted for an ID is on the server, pending, or staged and undelivered, modulo 2^64
  (`DeliveryRuns`). A request may be handled any number of times before it is answered, and copies of it may arrive
  later. The books hold up to what took effect beyond what was acknowledged. Between reports they balance exactly if
  that surplus is a multiple of 2^64, which it is when each request takes effect once if answered with nil, else not
  at all, and no copy comes late. A lost answer whose request is made again does double an increment, by a run that
  is given.
- With either executor a report whose sends all succeed once leaves the server as one batch of its metrics would,
  however its requests were interleaved (`DeliveryRuns.ReportIsOneBatch`). For every ID it found with data the server
  then holds the mean of the samples polled since the last commit, or all increments polled since then on top of what
  was there (`DeliveryContents.ReportDelivers`).
- The worker pool never deadlocks, moves every metric through in five steps whatever the batch length, returns
  exactly the IDs it was given, each as a success or failure just as its send went, and leaves nothing for the next
  call or for `Shutdown` (`Reporting`).
- Go's slice and pointer reuse in the accumulator never shows: any sequence of calls acts as on immutable sequences
  (`Accumulation`), and the accepted samples are always the committed blocks, the staged block and the pending ones
  (`History`). The first call that accumulates decides the type; from then on all calls of that type are accepted, in
  order, and no other, and every error follows from the calls made before (`Acceptance`).
- The SQL table and the map part over a batch that gives a new ID two types. Over any run of well-formed updates the
  table stands for the map if and only if every accepted batch gives each ID that is new to the table the same type
  first and last and, if that is a counter, increments before its last gauge that sum to 0 modulo 2^64; once parted
  they never agree again (`DbStore.RunRefines`, `DbStore.DriftStays`). Until then every call is answered alike, except
  a read of a counter that has left int64 (`DbStore.RunAnswersAgreeIff`).
- Under retry a statement or transaction takes effect once if it returns no error, else not at all, and once more for
  every answer that was lost after the work was done (`DbStore.OncePlusLost`). With lost answers the table is still as
  the error tells exactly under a condition read off table and update: for a batch told as failed, every row it names
  is what it would make of it, a counter that gets 0 or already holds what comes behind the last gauge, or a gauge of
  the last value (`DbStore.BatchAsToldIff`, `DbStore.GaugeAsToldIff`, `DbStore.CounterAsToldIff`).
- So over any run whose answers come through, whatever else fails, the table stands for the map with the acknowledged
  updates, under the same condition on their batches (`DbRuns.FaultyRunRefinesIff`). With lost answers a run is that of
  each update as often as it took effect, but for batches that their own first effect invalidates
  (`DbRuns.ServedIsMultiplied`).
- Well-formed deliveries leave the same store in every order if and only if each two of them commute: they have
  different IDs, one clashes with the type stored, both are counters, or they are equal. Then, with none clashing, all
  orders of single deliveries equal the batch; and for a report of distinct IDs they equal the batch of what does not
  clash (`Service`). A store reached by updates survives being written and read back (`FileStore`).
- The linter's stack and flag report, in source order and once each, every call of `panic`, inside main functions too,
  and every call of the three exits outside them, and nothing else; it panics itself exactly when a call it must judge
  hangs on a call whose callee is no selector, as in `f().Close()` (`NoRageQuit`). The exits it reports are those of
  the packages os and log alone if and only if no judged call goes to a method of such a name on something else named
  os or log (`NoRageQuit.ReportAsMeantIff`).
- Generated reset code compiles exactly for the field types named in `Supported`, then never dereferences nil, keeps
  the pointer graph and empties exactly what the first name of each declaration leads to (`ResetGenerator`).

Where the code and its comments differ, the code is followed:

- `Run` promises to unwrap a retryable error (internal/retrying/executor.go:66-68), but compares it with a pointer
  made on the spot, so the error of the last call is returned as it is.
- `LinearPolicy` takes a zero delay for the first one, so the delays grow linearly only while none of them is zero
  (`Retrying.LinearIffNoZero`).
- A field declaration with several names has only its first name reset (`ResetGenerator.SecondNameKept`).

## Model

| member | source | states |
|---|---|---|
| `Model.Metrics.constructor` | internal/model/metrics.go:26-35 | a metric made of given fields is hashed with them; it keeps the caller's delta pointer |
| `Model.Metrics.GaugeWithValue` | internal/model/metrics.go:55-63 | a gauge carries only a value, and its hash is current |
| `Model.Metrics.CounterWithDelta` | internal/model/metrics.go:65-73 | a counter carries only a delta, behind a pointer of its own, and its hash is current |
| `Model.Metrics.SetGauge` | internal/model/metrics.go:75-78 | replaces the value alone and rehashes |
| `Model.Metrics.AddCounter` | internal/model/metrics.go:80-87 | adds with wrap-around through the existing pointer, or points at the new delta; rehashes |
| `Model.Metrics.UpdateHash` | internal/model/metrics.go:89-105 | the hash is that of ID, type, delta and value joined by `#`, with nil for what is missing |
| `Model.IntRoundTrip` | internal/model/metrics.go:94-96 | decimal printing of a delta can be parsed back and is never `nil` or split by `#` |
| `Model.FormatIntIff` | internal/model/metrics.go:94-96 | a delta is printed as the one decimal numeral of its value, without leading zeros, signed only if negative |
| `Model.PreImageDecodes` | internal/model/metrics.go:89-105 | the hashed text decodes to the metric's fields whatever characters the ID holds |
| `Model.PreImageInjective` | internal/model/metrics.go:89-105 | two metrics of the known types have equal hashed texts if and only if they are equal |
| `Model.PreImageAmbiguousType` | internal/model/metrics.go:89-105 | every metric whose type text holds `#` shares its hashed text with one of another ID, same delta and value |
| `Model.PreImageAmbiguousId` | internal/model/metrics.go:89-105 | every metric whose ID holds `#` shares its hashed text with one of another ID and an unknown type |
| `Model.PreImageUnambiguousIff` | internal/model/metrics.go:89-105 | with types unrestricted, a metric is the only one of its hashed text if and only if neither its ID nor its type text holds `#` |
| `Int64.WrapExact` | internal/agent/accumulation/accumulator.go:62-62 | a wrapped sum is the one int64 that differs from the exact one by a multiple of 2^64 |
| `Accumulation.Append` | internal/agent/accumulation/accumulator.go:79-79 | Go's append gives the concatenation, in place or in a new array of any capacity |
| `Accumulation.Total` | internal/agent/accumulation/accumulator.go:122-128 | the loop adds up the staged samples |
| `Accumulation.MetricAccumulator.constructor` | internal/agent/accumulation/accumulator.go:41-45 | a new accumulator has no type and no data |
| `Accumulation.MetricAccumulator.AccumulateCounter` | internal/agent/accumulation/accumulator.go:47-65 | the first use fixes the type; a gauge refuses unchanged; else the increment is added through the pointer with wrap-around |
| `Accumulation.MetricAccumulator.AccumulateGauge` | internal/agent/accumulation/accumulator.go:67-81 | the same for samples, appended to a slice that may share its array with the staged one; which are accepted is `Acceptance` |
| `Accumulation.MetricAccumulator.StageChanges` | internal/agent/accumulation/accumulator.go:85-100 | moves the data aside and returns its metric, or nil without data, or the error for a wrong staging state or an unknown type |
| `Accumulation.MetricAccumulator.StageCounterChanges` | internal/agent/accumulation/accumulator.go:102-111 | the metric points at the accumulator's own staged amount |
| `Accumulation.MetricAccumulator.StageGaugeChanges` | internal/agent/accumulation/accumulator.go:113-130 | the samples are copied out of the reused array and the metric holds their mean |
| `Accumulation.MetricAccumulator.RollbackStaged` | internal/agent/accumulation/accumulator.go:132-166 | staged data comes back before what was accumulated meanwhile; without staging nothing happens |
| `Accumulation.MetricAccumulator.CommitStaged` | internal/agent/accumulation/accumulator.go:168-184 | drops what is staged and nothing else; without staging it is an error |
| `Accumulation.Call` | internal/agent/accumulation/accumulator.go:47-184 | each call on the object has the effect, the error and the metric of its transition on values; the metric points at the accumulator's own staged amount |
| `Accumulation.Drive` | internal/agent/accumulation/accumulator.go:47-184 | any sequence of calls on the object with shared arrays and pointers acts as on immutable values |
| `Accumulation.AccumulateBehind` | internal/agent/accumulation/accumulator.go:102-111 | a staged metric keeps its value however much is accumulated behind it |
| `Accumulation.ApplySound` | internal/agent/accumulation/accumulator.go:47-184 | no call leaves data of the other type, or staged data without the staging flag |
| `Accumulation.StageThenResolve` | internal/agent/accumulation/accumulator.go:85-184 | rolling back at once is invisible, committing at once empties; staging takes hold exactly if there is data |
| `Accumulation.ResolveCommutes` | internal/agent/accumulation/accumulator.go:47-184 | committing or rolling back behind an accumulation leaves what the same accumulation behind the commit or rollback would |
| `Accumulation.ResolveCommutesAll` | internal/agent/accumulation/accumulator.go:47-184 | the same for any accumulations while data is staged |
| `History.IncrementKeepsInv` | internal/agent/accumulation/accumulator.go:47-65 | an accepted increment keeps the books of the accumulator modulo 2^64 |
| `History.RollbackKeepsInv` | internal/agent/accumulation/accumulator.go:151-166 | a rollback loses no increment and no sample and keeps the samples' order |
| `History.CommitKeepsInv` | internal/agent/accumulation/accumulator.go:168-184 | a commit makes the staged block a committed one, reported by its mean |
| `History.NothingLost` | internal/agent/accumulation/accumulator.go:47-184 | after any calls the accepted samples in order are committed blocks, staged block, pending samples, each report is its block's mean, and increments are all accounted for |
| `History.MeanBetween` | internal/agent/accumulation/accumulator.go:122-129 | a reported mean lies between the least and the greatest of its samples |
| `History.GaugeMassConserved` | internal/agent/accumulation/accumulator.go:113-184 | reports weighted by their block sizes plus staged and pending samples add up to all accepted samples |
| `Acceptance.AccHoldsCalls` | internal/agent/accumulation/accumulator.go:47-184 | after any calls type, staging flag, samples and amounts are those of the calls: pending is what was accepted since the last commit and is not staged, the staged block what was accepted before that |
| `Acceptance.CallErrors` | internal/agent/accumulation/accumulator.go:47-184 | accumulating errs exactly against the type of the first accumulating call, staging exactly while something is out or nothing was accumulated, committing exactly while nothing is out, rolling back never |
| `Acceptance.HandsOut` | internal/agent/accumulation/accumulator.go:85-130 | staging hands out the mean of all samples, or the total of all increments, accepted since the last commit, exactly if there are any and nothing is out |
| `Acceptance.AcceptedIsOffered` | internal/agent/accumulation/accumulator.go:47-81 | of the samples offered all are accepted, in order, if the first accumulating call was one, else none; of the increments likewise |
| `Acceptance.SamplesAlone` | internal/agent/accumulation/accumulator.go:67-81 | offered no increments, an accumulator accepts every sample without an error |
| `Acceptance.IncrementsAlone` | internal/agent/accumulation/accumulator.go:47-65 | offered no samples, it accepts every increment without an error |
| `AgentStorage.Storage.constructor` | internal/agent/accumulation/storage.go:14-19 | a new storage holds no accumulators |
| `AgentStorage.Storage.GetOrNew` | internal/agent/accumulation/storage.go:21-29 | an ID gets an accumulator object of its own once; existing ones are kept |
| `AgentStorage.Storage.On` | internal/agent/accumulation/storage.go:31-35 | a call on the accumulator of an ID acts as on values and changes no other accumulator, though each holds arrays and pointers of its own; a staged metric is handed out as an object backed by its accumulator |
| `AgentStorage.Storage.StoreCounterMetric` | internal/agent/poller.go:115-124 | an increment changes its own ID's accumulator alone, made if there was none; the error is that of the accumulator |
| `AgentStorage.Storage.StoreGaugeMetric` | internal/agent/poller.go:126-135 | a sample changes its own ID's accumulator alone, made if there was none; the error is that of the accumulator |
| `AgentStorage.Storage.Poll` | internal/agent/poller.go:115-135 | any samples and increments in turn, errors passed over |
| `AgentStorage.Storage.BackedShows` | internal/agent/accumulation/accumulator.go:102-130 | a metric backed by its staged accumulator shows the staged value, whatever else is accumulated |
| `AgentStorage.PolledAt` | internal/agent/poller.go:115-135 | after any polls an ID exists if it did or was polled, and its accumulator has taken in just the calls for that ID, in order |
| `Reporter.Reporter.constructor` | internal/agent/reporter.go:51-56 | a positive request limit selects the worker pool |
| `Reporter.Reporter.ExecReport` | internal/agent/reporter.go:79-118 | what is sent are the staged metrics, read when sent; every accumulator with data is reported once, succeeds or fails as its send did, and ends up emptied or as it was under everything accumulated while metrics were under way; only untyped accumulators are logged, in order |
| `Reporter.Reporter.StageAll` | internal/agent/reporter.go:84-98 | stages every accumulator, collects the metrics in visiting order, skips the untyped ones with a log entry |
| `Reporter.Reporter.Resolve` | internal/agent/reporter.go:102-117 | commits exactly the successes and rolls back exactly the failures; the commit error never occurs |
| `Reporter.Reporter.Send` | internal/agent/reporter.go:100-100 | both executors split the IDs sent by the outcomes of their sends, in the pool those of the schedule |
| `Reporter.ResolvedAt` | internal/agent/reporter.go:102-117 | resolving in the order of the lists commits each success and rolls back each failure once |
| `Reporter.ToSendIds` | internal/agent/reporter.go:84-98 | the metrics sent are those of the accumulators with data, no ID twice |
| `Reporter.StagedThenResolved` | internal/agent/reporter.go:85-117 | a staged accumulator is emptied by a commit and restored by a rollback |
| `Reporter.StagedBehind` | internal/agent/reporter.go:85-117 | behind any accumulation what is staged stays, and a commit or rollback leaves the accumulation on top of the emptied or the former accumulator |
| `Reporter.Reporter.PollBehind` | internal/agent/reporter.go:85-117 | accumulating while metrics are under way changes none of them |
| `Reporter.Reporter.ResolveReport` | internal/agent/reporter.go:102-117 | resolving empties each success and restores each failure under what came meanwhile |
| `Reporting.BatchExecutor.Execute` | internal/agent/reporting/batcher.go:23-41 | all IDs succeed or all fail, as the one send does |
| `Reporting.Result.Append` | internal/agent/reporting/result.go:20-23 | both lists grow by the other result's |
| `Reporting.WorkerPoolExecutor.constructor` | internal/agent/reporting/pooler.go:18-32 | a new pool is quiescent |
| `Reporting.WorkerPoolExecutor.Execute` | internal/agent/reporting/pooler.go:34-49 | on every schedule it returns: each of its IDs a success as often as the schedule made a send of it succeed, and a failure as often as one failed, with empty channels and idle workers |
| `Reporting.OutcomesAreSends` | internal/agent/reporting/pooler.go:56-72 | after any steps of a schedule the outcomes are those of the sends it made, with the ID the worker held and the outcome the sender gave |
| `Reporting.IdsWithCount` | internal/agent/reporting/pooler.go:42-45 | the outcome lists hold an ID as often as it was collected with that outcome |
| `Reporting.WorkerPoolExecutor.Shutdown` | internal/agent/reporting/pooler.go:51-54 | after it no goroutine has a step left, so none sends on a closed channel |
| `Reporting.StepEffect` | internal/agent/reporting/pooler.go:34-72 | a send turns one unsent metric into one outcome with its ID; every other step only moves things |
| `Reporting.StepKeepsTraffic` | internal/agent/reporting/pooler.go:34-72 | no step loses or doubles an ID between feeder, tasks, workers, results and collector |
| `Reporting.StepKeepsInv` | internal/agent/reporting/pooler.go:34-72 | channel bounds and conservation hold after every step, over any number of calls |
| `Reporting.CollectedAll` | internal/agent/reporting/pooler.go:43-45 | when as many results as metrics were collected, nothing is left anywhere and the IDs are those asked for |
| `Reporting.BeginEffect` | internal/agent/reporting/pooler.go:34-40 | a call finds no leftovers of an earlier one |
| `Reporting.NothingLeaks` | internal/agent/reporting/pooler.go:34-72 | in every run each return hands back its own call's IDs, and no step follows a shutdown |
| `Reporting.Progress` | internal/agent/reporting/pooler.go:34-72 | no deadlock: while results are missing some goroutine can move, for every positive rate and batch length |
| `Reporting.StepUsesOne` | internal/agent/reporting/pooler.go:34-72 | each step takes exactly one from the weighted measure of what remains to be moved |
| `Reporting.DoneWhenNothingRemains` | internal/agent/reporting/pooler.go:43-48 | the measure is used up exactly when all results are collected |
| `Reporting.ExecuteTakesFiveStepsEach` | internal/agent/reporting/pooler.go:34-49 | a call that has run for k steps has 5 per metric less k to go |
| `Reporting.OutcomesPartitionIds` | internal/agent/reporting/pooler.go:42-45 | the success and failure lists together are the collected IDs |
| `Reporting.SplitDistinct` | internal/agent/reporter.go:100-117 | the two outcome lists of a report have no ID twice and none in common |
| `MemStore.MemStorage.constructor` | internal/repository/memstorage.go:19-24 | a new store is empty |
| `MemStore.MemStorage.AddCounterInMutex` | internal/repository/memstorage.go:51-62 | inserts a counter, adds to one with wrap-around, or refuses another type without effect |
| `MemStore.MemStorage.SetGaugeInMutex` | internal/repository/memstorage.go:32-43 | inserts a gauge, overwrites one, or refuses another type without effect |
| `MemStore.MemStorage.GetByID` | internal/repository/memstorage.go:64-73 | hands out the stored object, whose hash is that of its fields, or the not-found error |
| `MemStore.MemStorage.BatchUpdate` | internal/repository/memstorage.go:75-101 | for any metric objects, the caller's, the store's own, or the caller's with a delta the store keeps: fails without effect exactly if some metric clashes with a stored type, else applies all in order, each with the value it then has; no input object that was not stored becomes so |
| `MemStore.MemStorage.SomethingDescribes` | internal/repository/memstorage.go:75-101 | every metric object is a caller's, the store's own or one that shares a delta with it, so `BatchUpdate` speaks of every batch |
| `MemStore.MemStorage.DescribedShows` | internal/repository/memstorage.go:75-101 | the value of such an object is the one its kind says |
| `MemStore.GivenBatch` | internal/repository/memstorage.go:75-101 | without aliases a batch of objects is the batch of their values |
| `MemStore.OwnObjectDoubles` | internal/repository/memstorage.go:64-101 | a stored object passed back in is never refused; a counter of it doubles, a gauge stays |
| `MemStore.MemStorage.GetAllSorted` | internal/repository/memstorage.go:103-115 | hands out the stored objects themselves, in the strictly increasing listing of the map, whatever the walking order and sort |
| `MemStore.MemStorage.SetAll` | internal/repository/memstorage.go:117-124 | puts each metric, of whatever fields, under its ID as a new hashed object with the delta pointer it was given, later ones over earlier ones |
| `MemStore.RunKeeps` | internal/repository/memstorage.go:26-101 | over any run every metric is stored under its own ID, carries only what its type uses, is never removed and never changes type |
| `MemStore.RefusedIff` | internal/repository/memstorage.go:32-101 | updates are refused exactly against a stored type, batches if one of their metrics is, without effect |
| `MemStore.LookupFinds` | internal/repository/memstorage.go:64-73 | reading returns what is stored, and an error only if nothing is |
| `MemStore.ListingUnique` | internal/repository/memstorage.go:103-115 | a store has only one strictly increasing listing |
| `MemStore.SortedIsListing` | internal/repository/memstorage.go:107-114 | any sort by ID of the collected metrics is that listing |
| `MemStore.LessTotal` | internal/repository/memstorage.go:111-113 | the ID order compares any two different IDs in one direction only |
| `MemStore.LessIff` | internal/repository/memstorage.go:111-113 | an ID comes before another if it has the smaller character where they first differ, or ends there |
| `Service.MetricsService.AccumulateMetric` | internal/service/metrics.go:50-72 | for any metric object, the store's own included: dispatches by type; a missing value and an unknown type are errors without effect |
| `Service.MetricsService.BatchAccumulateMetrics` | internal/service/metrics.go:85-93 | the store's batch of any metric objects, its refusal wrapped |
| `Service.EntryAfter` | internal/repository/memstorage.go:88-99 | with distinct IDs each entry depends on the one metric with its ID |
| `Service.OrderIrrelevant` | internal/repository/memstorage.go:75-101 | metrics with distinct IDs may be applied in any order, and clashing ones change nothing |
| `Service.EachEqualsBatch` | internal/service/metrics.go:50-93 | single deliveries in any order equal one batch of the metrics that do not clash, which is the whole report if none does |
| `Service.AccumulateRefusedIffClash` | internal/service/metrics.go:50-72 | a well-formed single delivery fails exactly if its type clashes, then without effect |
| `Service.AccumulateAnswers` | internal/service/metrics.go:50-72 | for any metric: the error for a missing value, for an unknown type and for a clash, none else, and an error leaves the store alone |
| `Service.OrderMattersForRepeatedIds` | internal/service/metrics.go:50-72 | two unequal gauges of one ID show the order of their delivery: an instance of the lemmas below |
| `Service.CommuteIff` | internal/service/metrics.go:50-72 | two well-formed deliveries give the same store in both orders if and only if their IDs differ, one clashes, both are counters, or they are equal |
| `Service.AnyOrder` | internal/service/metrics.go:50-72 | deliveries that commute in pairs, repeated IDs included, leave the same store in every order |
| `Service.OrderIrrelevantIff` | internal/service/metrics.go:50-72 | every order of the deliveries leaves the same store if and only if they commute in pairs |
| `Service.EveryOrderEqualsBatchIff` | internal/service/metrics.go:50-93 | where none clashes, single deliveries in every order equal the batch if and only if they commute in pairs |
| `FileStore.SerializeMetrics` | internal/repository/filestorage.go:158-177 | the file is the bracketed lines, with a comma behind every element but the last |
| `FileStore.SnapshotReadsBack` | internal/repository/filestorage.go:124-128 | what was written parses as a JSON array of exactly the metrics written |
| `FileStore.LoadingInvertsListing` | internal/repository/filestorage.go:129-132 | loading the listing of a store that keeps every metric under its ID into an empty one gives the same store |
| `FileStore.SnapshotRoundTrip` | internal/repository/filestorage.go:115-177 | every store reached by updates survives being written and read back |
| `FileStore.FileStorage.constructor` | internal/repository/filestorage.go:28-63 | wraps a new in-memory store, synchronous exactly with interval 0; if asked to restore, it holds what the file parses to, and starts empty without a readable file |
| `FileStore.FileStorage.Store` | internal/repository/filestorage.go:137-156 | after a successful write the file holds what the memory holds, else what the write left, and the error is returned |
| `FileStore.FileStorage.Tick` | internal/repository/filestorage.go:47-60 | the timed snapshot of an asynchronous store |
| `FileStore.FileStorage.RestartRestores` | internal/repository/filestorage.go:28-63 | a store restarted from a current file holds what the old one held |
| `FileStore.FileStorage.AddCounter` | internal/repository/filestorage.go:73-85 | memory changes as the map does even if the snapshot fails; without error a synchronous store's file is current; a failed write leaves what it wrote; an asynchronous store's update, and any refusal, leave the file alone |
| `FileStore.FileStorage.SetGauge` | internal/repository/filestorage.go:87-99 | the same for gauges |
| `FileStore.FileStorage.BatchUpdate` | internal/repository/filestorage.go:101-113 | the same for batches of any metric objects |
| `FileStore.FileStorage.Load` | internal/repository/filestorage.go:115-135 | takes over every metric the file parses to, or changes nothing and reports it |
| `Retrying.Run` | internal/retrying/executor.go:26-70 | one call and at most max(0, maxRetries) more, or none more without a policy, all of them if every call fails retryably; it stops at the first success or non-retryable error, returns the last outcome, and sleeps as the policy says |
| `Retrying.ActsAtMostOnce` | internal/retrying/executor.go:26-70 | if failed attempts change nothing, the action happens once when no error is returned and else not at all |
| `Retrying.LinearIffNoZero` | internal/retrying/policy.go:41-46 | sleep k is d + kc in int64 exactly as long as no earlier one was zero, or if d equals c |
| `Retrying.LinearSchedule` | internal/retrying/policy.go:41-46 | with positive d, nonnegative c and no overflow n sleeps take nd + cn(n-1)/2 |
| `Retrying.ZeroInitialDelay` | internal/retrying/policy.go:41-46 | a zero initial delay never grows |
| `DbStore.PostgresDBStorage.constructor` | internal/repository/dbstorage.go:42-56 | a store on an empty table with a retry policy |
| `DbStore.PostgresDBStorage.SetGauge` | internal/repository/dbstorage.go:58-89 | under any faults the upsert takes effect as often as its attempts reached the table, and the error is that of the last attempt; no row affected means a type clash |
| `DbStore.PostgresDBStorage.AddCounter` | internal/repository/dbstorage.go:91-122 | the same for the adding upsert |
| `DbStore.PostgresDBStorage.Execute` | internal/repository/dbstorage.go:104-116 | a retried upsert: its attempts, how many took effect, its error |
| `DbStore.PostgresDBStorage.BatchValidateOnce` | internal/repository/dbstorage.go:229-263 | one read of the types refuses exactly the batches with a clash |
| `DbStore.PostgresDBStorage.BatchSetOnce` | internal/repository/dbstorage.go:265-300 | one transaction: all statements or, failing at any point, none, except that a commit whose answer is lost has taken effect |
| `DbStore.TransactionIsWhole` | internal/repository/dbstorage.go:265-300 | a failure before the commit leaves the table alone and is returned; only a commit takes effect, also if its answer is lost |
| `DbStore.PostgresDBStorage.BatchUpdate` | internal/repository/dbstorage.go:155-166 | a type clash or a failed read stops the batch without effect; else, on whatever other sessions made of the table meanwhile, the whole batch takes effect once for each transaction committed, and the error is that of the last attempt |
| `DbStore.AttemptsSettled` | internal/retrying/executor.go:26-70 | how many attempts are made, and so how often a change takes effect, is settled by the policy and the faults alone |
| `DbStore.AttemptsBounded` | internal/retrying/executor.go:26-70 | in the policy's fields: one attempt and at most maxRetries more, all of them if every one fails retryably |
| `DbStore.RetriedIff` | internal/repository/dbstorage.go:26-41 | an attempt is repeated exactly after a failure with code 08000, 08003 or 08006 |
| `DbStore.ExecRepeats` | internal/repository/dbstorage.go:104-116 | n attempts of a statement apply it once for each attempt that reached the table |
| `DbStore.BatchRepeats` | internal/repository/dbstorage.go:163-165 | n attempts of a transaction apply all its statements once for each commit that took effect |
| `DbStore.OncePlusLost` | internal/retrying/executor.go:26-70 | a retried change takes effect once if it ends without error, else not at all, and once more for each lost answer |
| `DbStore.ExactlyOnceIff` | internal/retrying/executor.go:26-70 | once without an error and not at all with one: if and only if no answer was lost |
| `DbStore.GaugeAsToldIff` | internal/repository/dbstorage.go:58-89 | a gauge is as its error tells if and only if there was no error, nothing was lost, or the row is of another type or holds the value already |
| `DbStore.CounterAsToldIff` | internal/repository/dbstorage.go:91-122 | a counter is as told if and only if nothing was lost, the row is of another type, or the increment is 0 and makes no difference |
| `DbStore.RowStaysIff` | internal/repository/dbstorage.go:265-300 | a batch leaves a row as it is if and only if it names no such ID, or is a gauge last with the last value stored, or a counter last that adds 0 or is set behind its last gauge to what is stored |
| `DbStore.BatchAsToldIff` | internal/repository/dbstorage.go:265-300 | a batch with lost answers is as told if and only if, told a success, it adds nothing to IDs it gives no gauge for, or, told a failure, every ID it names has the row it would leave, as `RowStays` spells out |
| `DbStore.SingleUpsertsRefine` | internal/repository/dbstorage.go:58-122 | single upserts change and refuse as the map does, on every table, counters modulo 2^64 |
| `DbStore.BatchStatementRefinesIff` | internal/repository/dbstorage.go:279-297 | a batch statement acts as the map does if and only if its metric is well-formed and does not clash |
| `DbStore.BatchRow` | internal/repository/dbstorage.go:265-300 | what a batch leaves in a row: the last type, the last gauge value, or the increments behind the last gauge |
| `DbStore.BatchEntry` | internal/repository/memstorage.go:75-101 | what a batch leaves in the map: the first type, with all its increments or its last gauge value |
| `DbStore.EntriesAgreeIff` | internal/repository/dbstorage.go:265-300 | after an accepted batch row and entry of an ID correspond if and only if the ID was stored before or its mixture of types agrees |
| `DbStore.BatchRefines` | internal/repository/dbstorage.go:155-166 | batches are refused alike, with the access error, and an accepted one leaves corresponding contents if and only if it gives every ID new to the table the same type first and last and, for a counter, increments before its last gauge that sum to 0 modulo 2^64 |
| `DbStore.OneTypeAgrees` | internal/repository/dbstorage.go:265-300 | a batch that gives no ID two types agrees |
| `DbStore.UpsertAllRefines` | internal/repository/dbstorage.go:265-300 | a validated batch with one type per ID leaves corresponding contents |
| `DbStore.MixedTypesDiffer` | internal/repository/dbstorage.go:283-288 | an instance: a counter and then a gauge for one new ID leave a gauge in the table and a counter in the map |
| `DbStore.MixedSumsDecide` | internal/repository/dbstorage.go:283-288 | of a counter d, a gauge and a counter for one new ID table and map agree if and only if d is 0 |
| `DbStore.TypeOverwrittenIff` | internal/repository/dbstorage.go:283-288 | a stored type is overwritten if and only if the batch's last type for it is another one, as when another session stored it behind the validation |
| `DbStore.RunRefines` | internal/repository/dbstorage.go:58-166 | over any run of well-formed updates the table stands for the map, counters modulo 2^64, if and only if every accepted batch agrees as in `BatchRefines` |
| `DbStore.DriftStays` | internal/repository/dbstorage.go:58-166 | once table and map differ in a type or a counter, no update makes them agree again |
| `DbStore.UniformRunsAgree` | internal/repository/dbstorage.go:58-166 | runs whose batches give no ID two types always agree |
| `DbStore.SelectRefinesIff` | internal/repository/dbstorage.go:124-153 | reading agrees with the map if and only if the stored counter is in int64 |
| `DbStore.AnswersAgreeIff` | internal/repository/dbstorage.go:58-166 | every update is refused alike; a read is answered alike if and only if the counter is in int64 |
| `DbStore.RunAnswersAgreeIff` | internal/repository/dbstorage.go:58-166 | in any run of updates and reads whose batches agree, every call is answered alike but a read of a counter that has left int64 |
| `DbRuns.TriesIff` | internal/retrying/executor.go:26-70 | the number of attempts is a function of policy and faults |
| `DbRuns.Serve` | internal/repository/dbstorage.go:58-166 | one call: the table is changed as often as the update took effect, and the error is that of the validation or the last attempt |
| `DbRuns.ServeAll` | internal/repository/dbstorage.go:58-166 | any run of calls: the table and all errors |
| `DbRuns.JobAsToldIff` | internal/repository/dbstorage.go:58-166 | a call changes the table once without an error and not at all with one, if and only if no answer is lost or repeats of the update do not show |
| `DbRuns.ServedIsAcknowledged` | internal/repository/dbstorage.go:58-166 | a run in which no lost answer shows leaves what its acknowledged updates leave without faults |
| `DbRuns.FaultyRunRefinesIff` | internal/repository/dbstorage.go:58-166 | a run without lost answers leaves the table standing for the map with the acknowledged updates, if and only if their batches agree |
| `DbRuns.ValidAgainIff` | internal/repository/dbstorage.go:229-300 | a batch that took effect passes validation again if and only if it gives no ID two types |
| `DbRuns.RepeatsAsCallsIff` | internal/repository/dbstorage.go:155-166 | an update that takes effect n times acts as n calls if and only if it is no batch, n is at most 1, the batch gives no ID two types, or adds nothing to IDs it gives no gauge for |
| `DbRuns.ServedIsMultiplied` | internal/repository/dbstorage.go:58-166 | under any faults a run of such updates is that of each as often as it took effect |
| `Delivery.HandledEffect` | internal/repository/memstorage.go:75-101 | a request handled n times adds its increments n times, or never if refused |
| `Delivery.StepKeepsConsistent` | internal/agent/reporter.go:79-118 | after every step of pollers, reporter, executor, server and clients exactly the metrics in flight are staged, with their own amounts and distinct IDs, and what counts as delivered took effect |
| `Delivery.StepKeepsConserved` | internal/agent/reporter.go:79-118 | every step, a handling or an answer of a request included, keeps the books of every counter modulo 2^64 |
| `Delivery.StageOneConsistent` | internal/agent/reporter.go:85-98 | staging one accumulator amid concurrent polls never meets a staged one |
| `Delivery.PoolStepConsistent` | internal/agent/reporting/pooler.go:34-72 | while the pool works each staged metric is unsent once, or has its outcome |
| `Delivery.ResolveOneMoves` | internal/agent/reporter.go:102-117 | a commit or rollback moves the staged amount to where the send's outcome says it is |
| `DeliveryRuns.RunInv` | internal/agent/reporter.go:79-118 | consistency and conservation in every state of every run |
| `DeliveryRuns.CountersConserved` | internal/agent/reporter.go:79-118 | accepted increments, other clients' increments and surplus equal server, pending and staged undelivered amounts modulo 2^64, in every state, also between a request's handling and its answer |
| `DeliveryRuns.BooksBetweenReports` | internal/agent/reporter.go:79-118 | between reports nothing is staged, and accepted equals server plus pending exactly if the surplus is 0 modulo 2^64 |
| `DeliveryRuns.HonestRunHasNoSurplus` | internal/agent/reporting/pooler.go:56-72 | if every request takes effect once on nil and else not at all, and no copy comes late, the surplus is what took effect of requests not answered yet |
| `DeliveryRuns.NothingLostOrDoubled` | internal/agent/reporter.go:79-118 | then between reports accepted equals server plus pending, with either executor |
| `DeliveryRuns.EveryReportResolves` | internal/agent/reporter.go:85-117 | no stage or commit meets the wrong staging state, and each staging is followed by exactly one commit or rollback |
| `DeliveryRuns.UntypedIsSkipped` | internal/agent/accumulation/accumulator.go:85-100 | an accumulator that was created and not used yet is passed over with the unknown-type error, and only such a one, without changing anything |
| `DeliveryRuns.ReporterNotStuck` | internal/agent/reporter.go:100-117 | in every state of every run, whatever the phase of the report, the reporter or its executor has a step left |
| `DeliveryRuns.ReportIsOneBatch` | internal/agent/reporting/pooler.go:34-72 | with either executor a report whose honest sends all succeed leaves the server as one accepted batch of its metrics does |
| `DeliveryRuns.ResendingDoubles` | internal/agent/reporting/batcher.go:32-40 | one increment, one lost answer, one repetition: the server counts two |
| `DeliveryRuns.ResendingMultiplies` | internal/agent/reporting/batcher.go:32-40 | for every n there is a run in which one increment, its answer lost n - 1 times, is counted n times |
| `DeliveryContents.AccumulatorsFollowCalls` | internal/agent/poller.go:115-135 | in every state of every run an accumulator is what the calls on it made it, and what it accepted is what the polls offered, all or none as the first poll of the ID decides |
| `DeliveryContents.PolledConserved` | internal/agent/reporter.go:79-118 | the counters' books in terms of the increments polled |
| `DeliveryContents.MetricsUnderWay` | internal/agent/accumulation/accumulator.go:102-130 | in every state of every run each metric under way is the mean of the samples, or the total of the increments, polled from the last commit to its staging |
| `DeliveryContents.StagingTakes` | internal/agent/reporter.go:85-98 | staging an ID adds the metric of what was polled since the last commit, and none if nothing was |
| `DeliveryContents.EveryDueIsStaged` | internal/agent/reporter.go:84-98 | every accumulator a report found is staged in it with all that was polled since the last commit |
| `DeliveryContents.ReportDelivers` | internal/agent/reporter.go:79-118 | a report of honest sends that all succeed leaves on the server, for every ID it found with data, the mean of the samples polled since the last commit, or the increments polled since then on top of what was there |
| `NoRageQuit.ResolveFailsIffBadChain` | cmd/linter/noragequit/visitor.go:122-137 | the unchecked type assertion fails exactly on selector chains with a call whose callee is no selector |
| `NoRageQuit.ResolvedNameIsExit` | cmd/linter/noragequit/visitor.go:102-103 | comparing the resolved text recognises exactly a selector on an identifier with the three names, by import path where the identifier is a package and by its own name where it is not |
| `NoRageQuit.RageQuitVisitor.ProcessNextFile` | cmd/linter/noragequit/visitor.go:33-37 | a file starts with an empty stack outside main and keeps earlier issues |
| `NoRageQuit.RageQuitVisitor.Enter` | cmd/linter/noragequit/visitor.go:39-50 | entering a node judges it by the flag before it, then pushes it |
| `NoRageQuit.RageQuitVisitor.PushNode` | cmd/linter/noragequit/visitor.go:61-76 | only a bottom-most receiver-less main of package main sets the flag |
| `NoRageQuit.RageQuitVisitor.PopNode` | cmd/linter/noragequit/visitor.go:78-86 | the flag falls when the stack empties; an empty stack is left alone |
| `NoRageQuit.RageQuitVisitor.CheckRageQuitCall` | cmd/linter/noragequit/visitor.go:88-120 | a call is reported or not as the specification of one call says |
| `NoRageQuit.RageQuitVisitor.CheckRageQuitSelector` | cmd/linter/noragequit/visitor.go:97-110 | an exit call outside main is reported with position and resolved name |
| `NoRageQuit.RageQuitVisitor.Inspect` | cmd/linter/noragequit/visitor.go:39-53 | walking a tree with stack and flag reports exactly the recursive specification's issues in order and restores stack and flag |
| `NoRageQuit.RageQuitVisitor.InspectParts` | cmd/linter/noragequit/visitor.go:61-86 | each top-level declaration is judged on its own |
| `NoRageQuit.Run` | cmd/linter/noragequit/analyzer.go:24-39 | an excluded package reports nothing; any other reports all its files' issues in order, unless a bad chain makes the linter panic |
| `NoRageQuit.ReportedIffWithin` | cmd/linter/noragequit/visitor.go:88-120 | the issues under a node are exactly those of the calls within it |
| `NoRageQuit.ReportIsExact` | cmd/linter/noragequit/analyzer.go:32-37 | a package's report holds an issue exactly if one of its calls has it, exits excused only inside main |
| `NoRageQuit.PanicReportedIff` | cmd/linter/noragequit/visitor.go:88-120 | a panic is reported at a position if and only if some call of an identifier panic stands there, in whatever function |
| `NoRageQuit.ExitReportedIff` | cmd/linter/noragequit/visitor.go:88-110 | an exit is reported at a position if and only if a call of it stands there in a declaration that is not the main function of package main |
| `NoRageQuit.OnlySuchIssues` | cmd/linter/noragequit/visitor.go:88-120 | nothing else is ever reported |
| `NoRageQuit.InPreorder` | cmd/linter/noragequit/visitor.go:39-53 | the issues of a node are those of its nodes one by one, each once, a node before what is under it |
| `NoRageQuit.EachCallOnce` | cmd/linter/noragequit/visitor.go:88-120 | a declaration's part of the report counts the panics and, unless exempt, the exits in it, position by position |
| `NoRageQuit.PanicsReportedOnce` | cmd/linter/noragequit/visitor.go:61-120 | a file's part of the report counts its panics |
| `NoRageQuit.ExitsReportedOnce` | cmd/linter/noragequit/visitor.go:61-120 | a file's part of the report counts its exits outside the main function |
| `NoRageQuit.WithinIsPreorder` | cmd/linter/noragequit/visitor.go:39-53 | the nodes walked are those within the node |
| `NoRageQuit.CrashesIffWithin` | cmd/linter/noragequit/visitor.go:133-135 | the linter panics under a node exactly if a call it must judge hangs on a bad chain |
| `NoRageQuit.BadChainIff` | cmd/linter/noragequit/visitor.go:122-137 | the type assertion fails if and only if, going left from the selector through selectors and calls of selectors, one comes to a call whose callee is none |
| `NoRageQuit.FileCrashesIff` | cmd/linter/noragequit/visitor.go:61-137 | the linter panics over a file if and only if such a call stands outside the main function |
| `NoRageQuit.PlainCallChainCrashes` | cmd/linter/noragequit/visitor.go:133-135 | an instance: `f().Close()` outside main makes the linter panic |
| `NoRageQuit.ReportAsMeantIff` | cmd/linter/noragequit/visitor.go:97-127 | a report holds the exits of the packages os and log alone if and only if no judged call goes to a method of such a name on another identifier named os or log; else it holds more |
| `NoRageQuit.LocalLogMisread` | cmd/linter/noragequit/visitor.go:122-127 | an instance: `log.Fatal()` on a local variable is reported |
| `ResetGenerator.TextRendersStatement` | cmd/reset/visitor.go:172-198 | the generated text is the rendering of one statement, and empty exactly where there is none |
| `ResetGenerator.CompilesIffSupported` | cmd/reset/visitor.go:172-198 | what is generated for a field is well-typed Go if and only if its name is not blank and its type is supported: no unsafe.Pointer, no named type but an interface in place, no pointer to a slice |
| `ResetGenerator.FieldIsWiped` | cmd/reset/visitor.go:166-198 | one field's statement never dereferences nil and empties exactly what the field leads to |
| `ResetGenerator.ResetIsExact` | cmd/reset/visitor.go:39-55 | the generated method never dereferences nil, keeps the pointer graph, and empties exactly what the first names lead to, however the fields alias |
| `ResetGenerator.ResetMethodIsExact` | cmd/reset/visitor.go:39-55 | the whole method: on a nil receiver it changes nothing, else it is as above |
| `ResetGenerator.ClearedIff` | cmd/reset/visitor.go:166-198 | what a location leads to is clear afterwards exactly if it was before, or a first name leads to the same place or map |
| `ResetGenerator.FirstNamesCleared` | cmd/reset/visitor.go:166-198 | the first name of every declaration is clear afterwards |
| `ResetGenerator.SecondNameKept` | cmd/reset/visitor.go:166-170 | of `a, b int` only a is reset |
| `ResetGenerator.HasResetComment` | cmd/reset/visitor.go:154-164 | a declaration counts if one line of its doc comment is the marker |
| `ResetGenerator.ResettableStruct` | cmd/reset/visitor.go:120-152 | only the first struct of an annotated declaration is used, and an embedded field makes the generator panic |
| `ObjectPool.RunKeepsInv` | internal/pool/resettables.go:24-43 | over any run that puts back only held objects, free and held are disjoint and together all that were made |
| `ObjectPool.Allocator` | internal/pool/resettables.go:24-43 | the constructor is called once per object of the peak, and reuse hands objects out in the order they were put back |
| `ObjectPool.FairCallsKeepOrder` | internal/pool/resettables.go:24-43 | in a pool in order a fair call keeps the order, and what is got is held by nobody |
| `ObjectPool.HandedOut` | internal/pool/resettables.go:24-35 | n gets hand out the first n free objects in order |
| `ObjectPool.PeakIsLargestHeld` | internal/pool/resettables.go:24-43 | the peak is never exceeded at any point of the run |
| `ObjectPool.PeakReached` | internal/pool/resettables.go:24-43 | the peak is reached at some point of the run |
| `ObjectPool.PutKeepsInvIffHeld` | internal/pool/resettables.go:37-43 | putting back keeps the pool in order if and only if the object is held |
| `ObjectPool.DoublePutSharesObject` | internal/pool/resettables.go:37-43 | whatever is put back while it is free is handed out twice before the queue is used up |
| `ObjectPool.ResettableObjectPool.Get` | internal/pool/resettables.go:24-35 | for objects of any state and reset function: takes the first free object, as reset when it was put back if nobody used it since, or the one the constructor function returns |
| `ObjectPool.ResettableObjectPool.Put` | internal/pool/resettables.go:37-43 | resets the object and queues it last |

## Left out

- MemStore.MemStorage.SetAll: for metrics whose deltas are neither shared among them nor with the store, as a parser makes them; two stored metrics sharing one counter are not modelled.
- Reporter.Reporter.ExecReport: accumulation comes while metrics are under way, between the last staging and the first commit or rollback; in between single stagings and resolvings it is covered by the interleavings of `Delivery`.
- Reporting.WorkerPoolExecutor.Execute: the schedule is a parameter that names an enabled step at each time; `Reporting.Progress` shows that there always is one.
- DbStore.RunRefines: for well-formed metrics, which carry the field of their type alone; on any other `DbStore.BatchStatementRefinesIff` shows that a batch statement differs from the map.
- DbStore.PostgresDBStorage.BatchUpdate: other sessions act between the validation and the transaction, not between two attempts of either.
- DeliveryRuns.CountersConserved: over the in-memory store behind the server; the SQL table is related to it by `DbStore`.
- DeliveryRuns.ReportIsOneBatch: with no other client and no late copy of an older request in between, which might change the types it meets.
- Model.PreImageInjective: floats are reals, printed by an injective printer given as a parameter; the md5 digest is represented by the text it is taken of.
- History.MeanBetween: over reals; rounding of means is not modelled.
- FileStore.SnapshotReadsBack: the encoder and decoder of one element are parameters with decoder after encoder the identity on any suffix; values without a JSON form (NaN, infinities) make the encoder fail in the code.
- FileStore.FileStorage.Load: null in place of an element of the array, on which the code panics, is not modelled; the text null for the whole array is.
- DbRuns.ServedIsAcknowledged: one way for whole runs, since a later update may cover up a lost answer; for each call the condition is exact (`DbRuns.JobAsToldIff`).
- DbRuns.ServedIsMultiplied: likewise one way for whole runs and exact for each call (`DbRuns.RepeatsAsCallsIff`).
- FileStore.FileStorage.Tick: the ticker itself and the snapshots' interleaving with requests are left to any sequence of calls.
- ObjectPool.RunKeepsInv: for constructors that make something new and callers that put back only what they hold; `ObjectPool.PutKeepsInvIffHeld` and `ObjectPool.DoublePutSharesObject` say what happens otherwise.
- ResetGenerator.ResetIsExact: calls of the `Reset` methods of interface-typed fields are listed, not executed, since what they do is up to their type; generic structs, and struct values that overlap other than by sharing a location, are not modelled.
- NoRageQuit.Run: the children of a node are given in the order in which ast.Inspect visits them; that library function is modelled by its documented behaviour.
- Data races: the `isStaged` and type checks outside the mutexes; reports are sequential under the report mutex and a metric kind is fixed per ID as the poller does.
- `GetMetric`, the HTML page, audit notification, HTTP handlers and middleware: plumbing around the modelled operations.
- The sender's networking, compression, encryption and signatures: a send is its handlings on the server and its answer.
- Configuration, flags, migrations, logging, tickers, signals, the system metric collection of the poller: any schedule and any accumulate steps are covered.
- `ResetAll`, `Ping`, `Close`, the SQL store's `GetAllSorted`: no property beyond their statements; the collation of `ORDER BY` is the database's.
- The width of the type column (VARCHAR(10)), column conversions of float values, and duplicate names in generated code.
