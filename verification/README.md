# ResourceAgent: verified model

A Dafny model of the concurrent and data-handling core of ResourceAgent, the metrics agent: how a metric
becomes Kafka records, how records are buffered, capped, flushed and handed over while the proxy address
changes, how the hardware helper process is supervised, how collector goroutines are started and stopped,
how the disk query is kept to a single flight, and how the busiest processes are picked.

Two kinds of file go together.

* **Protocols** (`FlushProtocol`, `SenderProtocol`, `LhmProtocol` with `LhmService`, `SchedulerProtocol`, `WmiProtocol`,
  `AsyncWriter`) are step relations. One step is one critical section, one atomic operation or one channel
  operation, so a run is an interleaving of any number of goroutines. Timers, timeouts, cancellations and
  process deaths are steps that may happen at any moment. Each protocol has an inductive invariant, kept by
  every step, and its theorems speak of every reachable state. Fields described as history are read by no
  step; they only record what happened.
* **Objects** (`BufferedTransport`, `KafkaSender`, `LhmProvider`, `Scheduling`, `ProcessHeap`,
  `ProcessSelection`, `ProcessCollectors`, `FileSender`, the `Writer` of `AsyncWriter`, the `WmiQueryState`
  of `WmiProtocol`) are the code's own loops and in-place updates, proved against specification functions.
  The transport's critical sections are proved equal to the very functions (`Enqueued`, `Emptied`,
  `DroppedBy`, `Batches`) that the steps of `FlushProtocol` apply. `LhmProvider` and `Scheduling` use monitor
  invariants: where the code releases its mutex in mid-operation the method may rely on the invariant only.
  What the outside world does in a call (a reply, a timeout, a failed launch, a cancellation, another call
  stopping the scheduler) is a parameter of the method, and its contract says what comes of it.

`Batching`, `Sanitize`, `Decimal`, `GrokFormat` and `KafkaFormat` are the pure parts.

Where the code and its comments differ, the model follows the code:

* The selection comments promise `topN - watched` other processes. The heap is never shrunk when a watched
  process arrives late, and processes are passed over once `topN` watched ones have been seen.
  `DocumentedChoiceIff` states exactly when the promise holds, in number and in kind, and `ReportTop` says the
  same of the report; `BusiestIff` and `ReportsBusiestIff` state exactly when the others reported are the
  busiest; `LateWatchedOverfills` and `LateBusyIsIgnored` are inputs for which the promise fails.
* With `FlushMessages <= 0` even an empty buffer counts as full, so a wake-up can be missing;
  `NoLostWakeUp` is an equivalence for that reason. `FullBufferIsKnown` covers every other buffer under every
  configuration.
* The restart backoff is documented as a power of two of at most sixty seconds. The code shifts a machine word,
  so after word size minus one failures in a row there is no delay at all; `BackoffIff` states it exactly.
* An identifier that contains a negative timestamp can coincide with another one when one metric type is the
  other followed by a hyphen; `EsidEqualIff` lists all coincidences.
* The category of a row is printed unsanitized, so a line reads back exactly when the category does not
  contain `,pid:`; `CategoriesArePlain` shows that the categories in use do not.
* The helper prints one line nobody asked for when it cannot open the hardware, it may stop without answering
  its last request, and it would print two lines for one request if logging after a reply threw and the
  report of that got out. The provider's protocol contains the first two; `InStepIff` shows exactly what
  excluding the third rests on.
* A comment in the scheduler says the helper is killed after three timeouts in a row; the provider kills it
  at the first.

## Model

| member | source | states |
|---|---|---|
| Batching.TrimIsLongestFittingSuffix | internal/sender/kafkarest.go:221-229 | Dropping oldest entries leaves the longest suffix whose records fit under the cap |
| Batching.TrimIncremental | internal/sender/kafkarest.go:217-229 | Capping after every append gives what capping the whole history once would give |
| Batching.SurvivesIffSuffixFits | internal/sender/kafkarest.go:221-229 | An entry survives the cap exactly when it and everything newer fit together (always, when the cap is not positive) |
| Batching.NewestSurvivesIffItFits | internal/sender/kafkarest.go:223-229 | The newest entry survives exactly when it fits alone, so one call larger than the cap drops itself |
| Batching.ChunksPartition | internal/sender/kafkarest.go:335-348 | Splitting loses, repeats and reorders nothing, makes no empty or oversized slice, and makes ceil(n / size) of them |
| Batching.FlushDeliversEveryTopic | internal/sender/kafkarest.go:315-332 | Whatever order the topic map is visited in, the slices of each topic concatenate to that topic's buffered records in acceptance order |
| Batching.FlushSlices | internal/sender/kafkarest.go:330-348 | A flush of n records of a topic makes ceil(n / MaxBatchSize) non-empty slices for it within the limit; one slice without a limit |
| BufferedTransport.BufferedHTTPTransport.DropOldest | internal/sender/kafkarest.go:221-229 | The drop loop in place: the buffer becomes its longest fitting suffix, the count follows, the loss is returned |
| BufferedTransport.BufferedHTTPTransport.Enqueue | internal/sender/kafkarest.go:211-238 | The whole new guarded state of an accepting call, with the gauges, and how many records it pushed out |
| BufferedTransport.BufferedHTTPTransport.Deliver | internal/sender/kafkarest.go:206-258 | Empty calls do nothing, a closed transport refuses; otherwise the protocol's accepting step, the drop counter and the wake-up token |
| BufferedTransport.BufferedHTTPTransport.TakeAll | internal/sender/kafkarest.go:304-313 | A flush takes everything buffered and resets count and gauge, leaving the counters alone |
| BufferedTransport.BufferedHTTPTransport.GroupByTopic | internal/sender/kafkarest.go:315-321 | The aggregation map has exactly the buffered topics, each with its records in acceptance order |
| BufferedTransport.BufferedHTTPTransport.Flush | internal/sender/kafkarest.go:303-333 | What was buffered, and nothing else, is handed over topic by topic; every encodable batch is posted at least once, with its retries |
| BufferedTransport.BufferedHTTPTransport.SendBatchWithSplit | internal/sender/kafkarest.go:335-348 | The slicing loop hands over exactly the specified slices, in order, each with its retries |
| BufferedTransport.BufferedHTTPTransport.SendBatch | internal/sender/kafkarest.go:359-396 | A batch that can be encoded is posted at least once and at most MaxRetries + 1 times, never after a success, and fewer times only because one succeeded; one that cannot is not posted |
| BufferedTransport.PostsTryEach | internal/sender/kafkarest.go:330-396 | Over a whole flush every encodable batch is posted at least once and retried as configured, and no other batch is posted |
| BufferedTransport.BufferedHTTPTransport.Close | internal/sender/kafkarest.go:272-282 | Idempotent; the first call hands over everything still buffered, and every encodable batch of it is posted at least once, with its retries |
| BufferedTransport.BufferedHTTPTransport.BufferStats | internal/sender/kafkarest.go:266-268 | The observed count is the number of buffered records |
| BufferedTransport.PostsOfConcat | internal/sender/kafkarest.go:330-332 | Posting two lists of batches one after the other keeps each batch's attempts together and within budget |
| FlushProtocol.StepKeepsInv | internal/sender/kafkarest.go:206-333 | Every step of every goroutine keeps buffer, counter, wake-up, close, order and fate invariants |
| FlushProtocol.RunKeepsInv | internal/sender/kafkarest.go:206-333 | So does every interleaving |
| FlushProtocol.Conservation | internal/sender/kafkarest.go:217-248 | Accepted = buffered + taken + dropped; the drop counter lags by exactly the calls between their unlock and their addition; the count is exact and within the cap; the high-water mark is the largest count any call left |
| FlushProtocol.BufferRefinesHistory | internal/sender/kafkarest.go:217-229 | In every reachable state the buffer is the longest fitting suffix of what was accepted since the last flush |
| FlushProtocol.BufferedIffFits | internal/sender/kafkarest.go:217-229 | An entry accepted since the last flush is still buffered exactly when it and everything after it fit |
| FlushProtocol.TopicOrderKept | internal/sender/kafkarest.go:315-348 | Over a whole run and for each topic, the slices handed over concatenate to the flushed records in acceptance order; none is empty or too large |
| FlushProtocol.NoLostWakeUp | internal/sender/kafkarest.go:237-255 | In every reachable state a full buffer has a token, a call about to signal, or a woken flush loop; true exactly for FlushMessages > 0 |
| FlushProtocol.FullBufferIsKnown | internal/sender/kafkarest.go:237-255 | Under every configuration a full buffer that is not empty has one of the three |
| FlushProtocol.FullBufferCanBeTaken | internal/sender/kafkarest.go:237-313 | From every reachable state with a full buffer, the calls and the flush loop can go on to take all of it without timer, stop or a further `Deliver` |
| FlushProtocol.TimerCanFlush | internal/sender/kafkarest.go:287-313 | Whenever the loop is idle its timer leads to a flush of everything buffered |
| FlushProtocol.FlushesDisjoint | internal/sender/kafkarest.go:303-313 | Flushes take disjoint intervals of the acceptance order, one after the other |
| FlushProtocol.FateOfFlushedEpochs | internal/sender/kafkarest.go:221-313 | An entry was taken by a flush exactly when it, with what followed it up to that flush, fit under the cap |
| FlushProtocol.SettledAfterClose | internal/sender/kafkarest.go:272-313 | Once `Close` has returned nothing is buffered or half sent; each entry was handed over once or dropped by the cap, never both |
| FlushProtocol.CloseCanComplete | internal/sender/kafkarest.go:272-301 | From every state in which closing has begun, the flush loop and `Close` can finish alone: no deadlock |
| SenderProtocol.SysStepKeepsInv | internal/sender/kafka.go:231-318 | Every step of senders, refresher, closers and all transports keeps placement, ownership and every transport's invariant |
| SenderProtocol.AcknowledgedNeverStranded | internal/sender/kafka.go:231-251 | A `Send` that returned nil put its entry at exactly one place of exactly one transport, and once that transport's `Close` has returned the entry is settled |
| SenderProtocol.EveryEntryHasOneSender | internal/sender/kafka.go:231-251 | Conversely every entry in any transport came from exactly one `Send` |
| SenderProtocol.EveryTransportHasOneOwner | internal/discovery/refresher.go:117-154 | A transport is current, or for a moment in the refresher's hands, or handed to `Close` exactly once; outside a swap the remembered address is the current transport's |
| SenderProtocol.NothingLeftOpen | internal/sender/kafka.go:308-318 | With the sender closed and no refresh in progress every transport ever created has been handed to `Close` exactly once, and those closed have settled every entry |
| SenderProtocol.ShutdownCanComplete | internal/sender/kafka.go:308-318 | From every reachable state in which the sender's `Close` has begun there is a run without `Send` or new refresh after which `Close` has returned, the refresher is idle, every transport ever created is closed and every entry is settled |
| SenderProtocol.OpenSenderCanShutDown | internal/sender/kafka.go:308-318 | From every reachable state with the sender open, closing it leads to such a state |
| SenderProtocol.SendCanBeAcknowledged | internal/sender/kafka.go:231-251 | A `Send` on an open sender can always be acknowledged by its own steps, its entry then being the newest in the current transport |
| SenderProtocol.RefreshCanComplete | internal/discovery/refresher.go:117-154 | A refresh that learns a new address can always be carried through: new transport, its address, and the old one handed to `Close` |
| SenderProtocol.ClosedSenderRefuses | internal/sender/kafka.go:232-236 | A `Send` that begins after the sender was closed fails, and over any run nothing of it is in any transport |
| SenderProtocol.HandedTransportCanClose | internal/sender/kafka.go:308-318 | In every reachable state a transport handed to `Close` can finish closing by its own steps, whatever locks the sender holds, and that unblocks whoever waits for it |
| KafkaSender.Sender.Send | internal/sender/kafka.go:231-251 | All or nothing: records with distinct identifiers enter the transport as one entry, with drops counted and the flush loop signalled, or nothing changes; exactly when it succeeds |
| KafkaSender.Sender.SendBatch | internal/sender/kafka.go:254-278 | Several metrics enter as one entry holding all their records in order, or nothing enters; succeeds exactly when the sender is open, every metric can be formatted, and the transport is open or there is nothing to send |
| KafkaSender.Sender.SwapTransport | internal/sender/kafka.go:282-291 | The displaced transport is returned; a closed sender keeps its own |
| KafkaSender.Sender.Close | internal/sender/kafka.go:308-318 | Idempotent; the current transport is closed and hands over everything it still holds |
| KafkaSender.Refresher.RefreshOnce | internal/discovery/refresher.go:117-154 | Address and transport change together or not at all; the displaced one is passed on for closing; a refused one is closed |
| KafkaFormat.PrepareRecords | internal/sender/kafkaformat.go:24-111 | Every row becomes the record at its position with its identifier spelled out and all distinct; Grok text reads back as the row and never fails; JSON text is the encoding of a list that carries the row, and the first row that cannot be encoded is reported and nothing produced |
| KafkaFormat.EsidEqualIff | internal/sender/kafkaformat.go:75-77 | Exactly when two identifiers for the same equipment are equal |
| KafkaFormat.EsidInjective | internal/sender/kafkaformat.go:75-77 | With hyphen-free types or non-negative timestamps the identifier determines type, millisecond and counter |
| KafkaFormat.DistinctWithinCall | internal/sender/kafkaformat.go:86-108 | Records of one call have pairwise distinct identifiers |
| KafkaFormat.EsidsDifferAcrossCalls | internal/sender/kafkaformat.go:86-108 | So have records of calls that differ in type or millisecond |
| KafkaFormat.OutcomesExclusive | internal/sender/kafkaformat.go:89-110 | Producing records and reporting a failing row exclude each other, and the failing row is unique |
| GrokFormat.MillisRoundTrip | internal/sender/grokformat.go:49-54 | Three digits that read back as the millisecond |
| GrokFormat.TimestampParts | internal/sender/grokformat.go:28-54 | Each timestamp is date, clock and three digits of milliseconds between its own two separators |
| GrokFormat.TimestampsAgree | internal/sender/grokformat.go:29-46 | The two timestamps differ at their two separator characters and nowhere else |
| GrokFormat.FormatGrokTimestamp | internal/sender/grokformat.go:28-36 | The builder writes date, blank, clock, comma and three digits that are the milliseconds |
| GrokFormat.FormatJSONTimestamp | internal/sender/grokformat.go:38-46 | The builder writes date, `T`, clock, point and three digits that are the milliseconds |
| GrokFormat.ToGrokString | internal/sender/grokformat.go:67-82 | The builder writes the seven parts with their separators, and the line reads back as the row when the category is plain |
| GrokFormat.PrintParse | internal/sender/grokformat.go:67-82 | Splitting a printed row at its fixed separators recovers its fields exactly when the category is free of `,pid:` |
| GrokFormat.LineReadsAsRow | internal/sender/grokformat.go:67-82 | With a plain category the line gives back timestamp, category, PID, sanitized names and value of the row |
| GrokFormat.ListCarriesRow | internal/sender/grokformat.go:98-110 | The list has six fields, each with the row's value and its own format, and the timestamp |
| GrokFormat.FormatsAgree | internal/sender/grokformat.go:67-110 | What a reader recovers from the line is what the parsed-data list carries, field by field, and gives back PID and value |
| GrokFormat.CategoriesArePlain | internal/sender/grokformat.go:182-483 | The categories the converters use satisfy that condition |
| Decimal.ItoaRoundTrip | internal/sender/grokformat.go:74 | Printing an integer and reading it back gives the integer |
| Sanitize.SanitizeIsOnePass | internal/collector/sanitize.go:16-21 | The three rewriting passes equal one left-to-right pass |
| Sanitize.SanitizeCleans | internal/collector/sanitize.go:8-21 | The result is over the safe alphabet, without adjacent underscores and no longer; a name is unchanged exactly when it is already so |
| Sanitize.SanitizeIdempotent | internal/collector/sanitize.go:16-21 | Sanitizing twice is sanitizing once |
| Sanitize.KeptCharacters | internal/collector/sanitize.go:8-15 | The safe characters are the letters, the digits and five marks, one by one |
| Sanitize.SingleCharacter | internal/collector/sanitize.go:16-20 | Parentheses go, a safe character stays, any other becomes an underscore |
| Sanitize.ShouldInclude | internal/collector/temperature.go:66-74 | True exactly when some configured name sanitizes to the same text as the reported one |
| Sanitize.FilterIgnoresSanitizing | internal/collector/temperature.go:66-74 | The filter answers the same when either side was sanitized beforehand |
| LhmProtocol.StepKeepsInv | internal/collector/lhm_provider_windows.go:154-664 | Every step of callers, workers, helper processes and exit monitors keeps the invariant |
| LhmProtocol.ResponsesAligned | internal/collector/lhm_provider_windows.go:250-276 | Every response accepted answers the request its own worker wrote; what is cached or returned is such a response, free of errors |
| LhmProtocol.AtMostOneHelper | internal/collector/lhm_provider_windows.go:213-224 | At most one helper is alive, and with the mutex free and the provider not started none is attached or alive and the exit of each was reported |
| LhmProtocol.ExitChannelsClosedOnce | internal/collector/lhm_provider_windows.go:336-351 | No exit channel is closed twice, or while the process whose monitor captured it is alive; the field of the provider holds the attached process's channel, although every monitor closes the one it captured |
| LhmProtocol.SpawnAfterExit | internal/collector/lhm_provider_windows.go:648-658 | Every process spawned before has exited, and its exit was reported once on its own channel, before the next spawn |
| LhmProtocol.NoStaleWorker | internal/collector/lhm_provider_windows.go:500-594 | When a request is about to be made, any worker still running is stuck with a dead process that is no longer attached |
| LhmService.ReceiveServes | internal/collector/lhm_provider_windows.go:251-276 | A clean answer to a refresh is returned and cached; one with an error inside is reported and the cache stays |
| LhmService.LiveHelperCanServe | internal/collector/lhm_provider_windows.go:242-276 | From every reachable state in which a caller found the process alive some run returns and caches the answer to its own request |
| LhmService.DeadHelperCanBeReplaced | internal/collector/lhm_provider_windows.go:243-276 | From every reachable state in which a caller found it dead some run replaces it and serves the caller from the new one |
| LhmService.SleeperCanServe | internal/collector/lhm_provider_windows.go:633-658 | So can a sleeper that is woken with the provider started, whatever others have attached meanwhile |
| LhmService.CachedCanBeServed | internal/collector/lhm_provider_windows.go:227-238 | A caller that comes while something is cached can be served that, and nothing else changes |
| LhmService.InvalidateForgets | internal/collector/lhm_provider_windows.go:280-285 | After `Invalidate`, over any run, no call returns an answer accepted before |
| LhmService.StartCanSucceed | internal/collector/lhm_provider_windows.go:154-182 | A stopped provider can always be started, with the first answer in the cache |
| LhmService.StopCanComplete | internal/collector/lhm_provider_windows.go:213-224 | `Stop` can always be carried through: the process exits, that is reported, nothing is attached |
| LhmProvider.Provider.StopProcess | internal/collector/lhm_provider_windows.go:393-439 | Detaches the process only after it has exited |
| LhmProvider.Helper.Exchange | internal/collector/lhm_provider_windows.go:512-528 | A worker that starts with empty pipes and runs to its end reads the answer to its own request and leaves the pipes empty, unless it reads a startup error |
| LhmProvider.Provider.DoRequest | internal/collector/lhm_provider_windows.go:500-594 | A reply answers the request just written and leaves the pipes empty, but for the startup error of a process not yet serving; the timeout streak grows by timeouts only and is ended by a reply only |
| LhmProvider.Provider.StartProcess | internal/collector/lhm_provider_windows.go:293-390 | Succeeds exactly when the process is launched and its first request answered without error, which becomes the cache; otherwise nothing is attached and the cache is untouched |
| LhmProvider.Provider.Start | internal/collector/lhm_provider_windows.go:154-182 | Exactly when it succeeds, and what is attached and cached then; a failed start leaves nothing started or attached; a second start changes nothing |
| LhmProvider.Provider.Stop | internal/collector/lhm_provider_windows.go:213-224 | Every process ever spawned has exited when it returns |
| LhmProvider.BackoffIff | internal/collector/lhm_provider_windows.go:611-621 | The delay is min(60, 2^failures) seconds exactly while failures + 1 is less than the word size; beyond that there is none |
| LhmProvider.Provider.RestartWithBackoff | internal/collector/lhm_provider_windows.go:613-664 | It sleeps exactly when the backoff has not passed, and succeeds exactly when it is woken by the timer with the provider still started, if it slept, and the new process answers without error; a failed attempt counts one failure |
| LhmProvider.Provider.GetData | internal/collector/lhm_provider_windows.go:227-277 | A fresh cache is returned; otherwise the answer to the request this call wrote is returned and cached exactly when there is a live or successfully restarted process and the answer is free of errors; what each kind of failure leaves behind |
| LhmHelper.Serve | utils/lhm-helper/Program.cs:87-102 | A request served prints its reading, one that throws before its reply prints its message, one that throws after it prints both; an exception in the report leaves the loop |
| LhmHelper.RunDaemon | utils/lhm-helper/Program.cs:82-107 | The output is the lines of each request in order up to the one whose report throws in turn, which ends the loop |
| LhmHelper.InStepIff | utils/lhm-helper/Program.cs:85-103 | A running helper has printed one line for each request, in order and with its content, and a stopped one at most one for its last, exactly when no request has something throw after its reply and the report of it get out |
| SchedulerProtocol.RunKeepsInv | internal/scheduler/scheduler.go:48-248 | Every interleaving keeps context, uniqueness and phase invariants |
| SchedulerProtocol.NeverTwoForOneCollector | internal/scheduler/scheduler.go:66-248 | At no time are two goroutines alive for one collector |
| SchedulerProtocol.EveryWorkerCancellable | internal/scheduler/scheduler.go:76-137 | A live goroutine's context is done or is the one the stored cancel cancels; once not running it is done |
| SchedulerProtocol.StoppedStaysStopped | internal/scheduler/scheduler.go:214-247 | After `running` is flipped nothing is spawned and nobody comes back, whatever `Reconfigure` calls are under way, until the next `Start` |
| SchedulerProtocol.StopIsFinal | internal/scheduler/scheduler.go:76-91 | When the `Stop` that flipped `running` returns no goroutine is alive, and none will be until the next `Start` |
| SchedulerProtocol.NoSpawnDuringWait | internal/scheduler/scheduler.go:89-246 | The wait group is never added to while a call waits on it |
| SchedulerProtocol.WaitsCanEnd | internal/scheduler/scheduler.go:83-139 | Whenever a `Stop` or `Reconfigure` waits, all live goroutines have been told to stop and can exit by their own steps, after which the call goes on |
| SchedulerProtocol.ServingOnReturn | internal/scheduler/scheduler.go:48-248 | When a `Start`, or a `Reconfigure` that found the scheduler running after its wait, is about to return, the scheduler runs and has started a goroutine for every enabled collector and no other under the new generation |
| SchedulerProtocol.StartingCanComplete | internal/scheduler/scheduler.go:48-248 | Such a call can always return |
| SchedulerProtocol.ReconfigureCanComplete | internal/scheduler/scheduler.go:214-248 | From every reachable running state a `Reconfigure` can be carried through to a scheduler that serves exactly the collectors enabled by then |
| SchedulerProtocol.StopCanComplete | internal/scheduler/scheduler.go:76-91 | And a `Stop` to one that does not run, with nobody alive |
| Scheduling.Scheduler.Start | internal/scheduler/scheduler.go:48-73 | One live goroutine for each enabled collector under the stored context; a second start changes nothing |
| Scheduling.Scheduler.Stop | internal/scheduler/scheduler.go:76-91 | The call that flips `running` returns with nobody alive |
| Scheduling.Scheduler.Reconfigure | internal/scheduler/scheduler.go:214-248 | A running scheduler runs on unless a `Stop` came in between, and then serves exactly the collectors enabled now under a new context of the same parent; otherwise nobody is alive |
| WmiProtocol.SingleFlight | internal/collector/storage_health_windows.go:107-159 | At most one worker is inside the query and no caller is about to start another |
| WmiProtocol.CacheIsFresh | internal/collector/storage_health_windows.go:113-193 | The cache is the last finished result; a caller that lost the race returns a result no older than the last one finished when it lost, and finds none only if none had finished |
| WmiProtocol.LosersNeverSpawn | internal/collector/storage_health_windows.go:113-123 | Over every run from then on, a caller that lost the race starts no worker and returns from the cache, or without result, by what it saw |
| WmiProtocol.EveryWorkerHasOneStarter | internal/collector/storage_health_windows.go:113-133 | In every reachable state each worker was started by exactly one caller, one that had won the race |
| WmiProtocol.Recovers | internal/collector/storage_health_windows.go:133-159 | A stuck worker blocks only new queries: when its query returns, its own steps store the result and the next caller wins |
| WmiProtocol.CallerCanBeAnswered | internal/collector/storage_health_windows.go:107-166 | With no query in flight a new caller can get the result of its own query, which is then cached with the flag clear |
| WmiProtocol.LoserIsServed | internal/collector/storage_health_windows.go:113-123 | A caller that lost the race returns the last finished result, and nothing only if none has finished |
| WmiProtocol.WmiQueryState.QueryWMIDiskDrive | internal/collector/storage_health_windows.go:107-181 | Served from the cache while a query is in flight, or an error if there is none; otherwise the answer is stored and the flag cleared, or on a timeout the flag stays set for the worker left behind |
| ProcessHeap.UpStep | internal/collector/cpu_process.go:26-36 | One exchange of sift-up moves the only violation of the heap order to the parent |
| ProcessHeap.DownStep | internal/collector/cpu_process.go:26-36 | One exchange with the smaller child moves the only violation to that child |
| ProcessHeap.RootIsLeast | internal/collector/cpu_process.go:24-27 | In a heap the root is no larger than any element |
| ProcessHeap.MinHeap.Push | internal/collector/cpu_process.go:151-152 | The heap order is restored in place and the contents gain exactly the new element |
| ProcessHeap.MinHeap.ReplaceRoot | internal/collector/cpu_process.go:153-156 | The contents exchange the least element for the new one |
| ProcessHeap.MinHeap.Pop | internal/collector/cpu_process.go:168 | Takes out a least element and nothing else |
| ProcessSelection.KeptPushed | internal/collector/cpu_process.go:151-152 | While the heap is smaller than the slots left it holds everything there was, and goes on to |
| ProcessSelection.KeptFull | internal/collector/cpu_process.go:153-156 | With a full heap, replacing the least element exactly by busier processes keeps it the largest of those considered |
| ProcessSelection.KeptWatched | internal/collector/cpu_process.go:143-149 | A watched process takes a slot away while the heap stays as it is |
| ProcessSelection.FirstPass | internal/collector/cpu_process.go:107-158 | Unless cancelled, all watched processes are listed and the heap is the largest of the others considered, as many as ever fitted |
| ProcessSelection.Extract | internal/collector/cpu_process.go:165-169 | Popping into the list from its end gives the heap's contents in descending order |
| ProcessSelection.Select | internal/collector/memory_process.go:95-172 | Both lists, each sorted, of the processes to report |
| ProcessSelection.KeptBounds | internal/collector/cpu_process.go:143-158 | min(topN - watched, others) <= reported others <= min(topN, others) |
| ProcessSelection.FillsSlotsIff | internal/collector/cpu_process.go:83-85 | The documented number is reported exactly when the watched processes come early enough |
| ProcessSelection.DocumentedChoiceIff | internal/collector/cpu_process.go:83-85 | The documented number of others is kept and they are the busiest of all, exactly when the watched processes come early enough |
| ProcessSelection.BusiestIff | internal/collector/cpu_process.go:83-85 | The others kept are the busiest of all exactly when, for each one passed over, at least as many considered ones as are kept are no less busy |
| ProcessSelection.LateWatchedOverfills | internal/collector/cpu_process.go:147-152 | A selection of two processes where one is configured |
| ProcessSelection.LateBusyIsIgnored | internal/collector/cpu_process.go:147-150 | A selection that leaves the busiest process out |
| ProcessSelection.SelectedAreSamples | internal/collector/cpu_process.go:143-169 | Nothing is reported that was not sampled, or more often than it was; all watched ones and only those are in the watched part |
| ProcessCollectors.CPUProcessCollector.Collect | internal/collector/cpu_process.go:87-195 | The first enumeration only warms up; afterwards a report of the selection, unless listing fails or the context is done. Each row is about a listed process, with its identity, its reading shared over the processors and whether it is watched; each watched process that can be read has a row |
| ProcessCollectors.MemoryProcessCollector.Collect | internal/collector/memory_process.go:86-198 | A report of the selection, unless listing fails or the context is done. Each row is about a listed process, with its identity, percentage, three memory figures and whether it is watched; each watched process that can be read has a row |
| ProcessCollectors.CpuSampleIff | internal/collector/cpu_process.go:114-131 | A process gives no sample exactly when its reading or its name is missing |
| ProcessCollectors.MemorySampleIff | internal/collector/memory_process.go:104-128 | A process gives no sample exactly when one of its readings or its name is missing |
| ProcessCollectors.RowsAreBacked | internal/collector/cpu_process.go:171-189 | Every row comes from the sample of a listed process, and every watched sample has its row |
| ProcessCollectors.IsWatched | internal/collector/process_match.go:36-49 | A name is watched exactly when some configured name is equal to it up to case folding |
| ProcessCollectors.ReportOrder | internal/collector/cpu_process.go:160-189 | All watched processes come first and no others among them; both parts have the busiest first |
| ProcessCollectors.ReportConsidered | internal/collector/cpu_process.go:143-189 | The others reported were considered, that is came by while slots were left, and none considered and left out is busier |
| ProcessCollectors.ReportTop | internal/collector/cpu_process.go:83-189 | How many others a report holds; it is the documented report, in number and in kind, exactly when the watched processes come early enough; with fewer than topN watched no process left out is busier than a reported other |
| ProcessCollectors.ReportsBusiestIff | internal/collector/cpu_process.go:83-189 | No process left out is busier than a reported other exactly when those passed over are lesser, however many are watched; given distinct PIDs, so that a row names its process |
| ProcessCollectors.TwoRowsForOneSlot | internal/collector/cpu_process.go:147-189 | A report of two rows where one slot is configured |
| ProcessCollectors.NoProcessRepeats | internal/collector/cpu_process.go:160-189 | No PID is reported twice, given that the enumeration lists none twice |
| AsyncWriter.StepKeepsInv | internal/logger/logger.go:40-72 | Every step of writers, drain and close keeps the invariant |
| AsyncWriter.SinkReceivesAcceptedInOrder | internal/logger/logger.go:40-72 | Nothing is sent on the closed channel; the sink holds a prefix of the accepted messages, and all of them once `Close` has returned |
| AsyncWriter.FateOfEveryWrite | internal/logger/logger.go:40-72 | In every reachable state: a message sent is the accepted one at its position, no other call's is, and it is in the sink once `Close` has returned; a refused one met a full channel; a discarded one came after `Close` had begun |
| AsyncWriter.EveryMessageHasOneWriter | internal/logger/logger.go:40-72 | Every accepted message, and so everything in the sink, comes from exactly one `Write` |
| AsyncWriter.CloseCanComplete | internal/logger/logger.go:40-72 | From every reachable state `Close` can finish: the writers inside leave on their own, then it and the drain finish alone |
| AsyncWriter.Writer.Write | internal/logger/logger.go:40-55 | Keeps the message exactly when open and not full, and always reports success |
| AsyncWriter.Writer.Close | internal/logger/logger.go:64-72 | Every accepted message has reached the sink |
| FileSender.Sender.SendRow | internal/sender/file.go:139-146 | A line written is appended; the console shows nothing else, nothing when it is off, and loses nothing while its channel has room |
| FileSender.Sender.Send | internal/sender/file.go:87-148 | The file gains the rows' lines in order up to the first failure, and which failure that was; each line reads back as its row in the Grok format, or is the encoding of a list that carries it; all of them exactly on success |
| FileSender.Sender.Close | internal/sender/file.go:177-189 | All waiting lines are printed before it returns, and the console output is an in-order subsequence of the file |
| FileSender.Sender.ConsoleShowsFileLines | internal/sender/file.go:139-174 | At any moment the console has shown an in-order subsequence of the file's lines |

## Left out

- HTTP, TLS, SOCKS, Redis, sarama, fsnotify, lumberjack, gopsutil, the WMI call and process spawning are
  foreign calls. Each is a parameter, a step that may happen at any moment or a nondeterministic result;
  `SaramaTransport` is not modelled.
- Real time: tickers, timeouts and the end of a delay are steps that may come whenever the code could observe
  them, so the spacing of restarts is not part of this model. The time since the last attempt is a parameter.
- JSON encoding is a function parameter that may fail, for a row and for a batch; float formatting is an
  opaque string; percentages are reals without NaN. Counters are unbounded integers, where the source has
  64 bits.
- Strings are sequences of characters; the byte-level treatment of malformed UTF-8 by Go's regular
  expressions and JSON encoder is not modelled.
- Row conversion per metric type, configuration structs, validation and merging: field by field.
- Log output, the Windows event log, install and packaging, heartbeat, the simple per-sensor collectors,
  `collectHealthStatus` and disk classification.
- `Start` of the scheduler overlapping its other calls, as the program arranges that it does not; collector
  names are taken to be distinct because the registry is keyed by name.
- Several `Close` calls of one transport are one event, because `sync.Once` runs the body once and makes the
  others wait for it.
- `sort.Slice` is represented by an insertion into a list; only that it sorts is used.
- Memory aliasing of Go slices (the reused backing array of the buffer and of the heap): the buffer is a
  sequence, the heap an array as large as it can ever become.
- LhmProvider.Provider.DoRequest: the worker goroutine runs to its end or is abandoned somewhere on its way;
  its interleavings with everything else are in LhmProtocol.
- LhmProvider.Provider.RestartWithBackoff: the time other callers spend under the mutex during the sleep is
  represented by the monitor invariant alone; their steps are interleaved in LhmProtocol.
- Scheduling.Scheduler.Reconfigure: goroutines exiting and another call flipping `running` during the wait
  are the only interference; every interleaving is in SchedulerProtocol.
- BufferedTransport.BufferedHTTPTransport.Deliver: run without interference; the interleavings are in
  FlushProtocol.
- AsyncWriter.Writer.Write: run without interference; the interleavings are in AsyncWriter's steps.
- Sensor gathering in the helper's `Program.cs` outside its request loop.
