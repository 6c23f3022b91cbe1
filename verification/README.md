# Verified models of the agent's stateful parts

The agent collects metrics, events and topology on a host and forwards them. Nine of its
parts carry real state, protocols or arithmetic, and each is modelled here with the
branches, constants and error conditions of its source:

| files | part of the agent |
|---|---|
| `TransactionQueue`, `TransactionInvariants`, `TransactionRuns`, `TransactionEffects`, `TransactionManager` | the forwarder's bounded retry queue: eviction, throttling, limited parallelism, a breaker per endpoint, re-entrant `flush_next` |
| `WorkPool`, `ResultCollectors` | the thread pool's `map_async`: workers, work queue, ordered results |
| `LeaderElection` | a lease lock in one ConfigMap, with failing API requests |
| `BucketMachine`, `BucketRuns`, `BucketEffects`, `BucketAggregator` | time buckets of the StatsD aggregator: cached bucket, zero-fill, expiry |
| `MonotonicCount`, `MetricPacket` | monotonic counters; splitting and mending of metric packets |
| `PayloadSplitter` | recursive chunking of a metrics payload that is too big |
| `PodServiceMapper` | the cache of which services match which pods, edited by events |
| `TailFile` | a log tailer that reopens its file |
| `TopologySnapshots`, `LogPointAggregation` | snapshot marks and pruning; stable sort and group-by of log points |

`Prelude` and `Strings` hold shared vocabulary: options, duplicate-free lists, a stable
sort, Python's string order, `split` and `join`.

## How a part is modelled

* A *machine*: datatypes and functions that say what each operation does to the state as
  a value. What the environment decides (clock readings, outcomes of requests, which
  thread moves, what is written to a file, the order a dictionary has its keys in) is a
  parameter of the step. A predicate `Reaches` or a function `Run` gives the states that a
  list of events leads to, and the main lemmas are about all of those. What a single
  event does is told again over the fields alone, apart from the functions that compute it.
* The *objects*: classes with the source's fields, whose methods follow the source line
  by line, loops included. Where references matter a ghost field `model` holds the
  machine's state and `State()` is that model whenever it agrees with the real fields;
  elsewhere `State()` is read off the fields. Every method is proved to move it as the
  machine's function does, so what is proved of the machine's runs is true of the objects.
* The thread pool is the exception: its interleavings are those of a machine alone, and
  its objects are proved to give that machine what it works on, namely the units in order
  with one result registered for each job, and to deliver what it delivers once the last
  result is there.

Assumptions of the models, each a precondition or a type: the clock does not go back;
each request the queue sends is resolved once and `flush_next` follows each answer; the
parallelism limit is at least 1; a leader-election call is one atomic step, node names
differ and agents share the lease duration and the clock; the aggregator's interval is
positive and it is used by one thread; values are real numbers and times whole numbers of
one small unit; compression never gives an empty result; the path a tailer reads exists,
and looking at the file and opening it is one step; a file that takes the path has an
inode no earlier one has.

## Where code and documentation or expectation differ

The models follow the code. Each difference is stated by a lemma:

* A missing acquire time in the leader lock is said to count as expired, but fetching such
  a lock raises first, so nobody ever leads again (`MalformedLockStays`).
* A leader's flag alone is not exclusive (`FlagIsNotExclusive`): it is shared exactly when
  another agent looks for the lock once the lease has run out (`FlagIsSharedExactly`), so
  it is exclusive when no lease runs out but in its holder's own call
  (`FlagIsExclusiveWhenPunctual`). Flag and lease together always are.
* `map_async` on an empty iterable is never answered (`EmptyMapNeverReady`).
* Splitting three times may leave chunks that are too big and so are dropped, though each
  series in them would fit. Whatever the sizes, something is lost when neither the input
  nor any of its first chunks, down to the last level, fits (`FirstThatNeverFitsIsLost`).
  When a longer list is neither smaller nor cut into shorter chunks, that is the exact
  condition (`SentExactlyWhen`); when sizes go by length alone, it takes the last chunks,
  too (`SentExactlyByLength`). Nothing is lost when every stretch of the input fits that
  is no longer than three halvings leave (`SmallStretchesAreSent`). Two series are lost exactly when they are to
  be cut in two (`PairSentExactly`, `PairMayBeLost`).
* A ':' in a field of a datum, as a set value may have, breaks the packet exactly when the
  field is not the last one printed (`PrintsMendExactly`). In the value of the first datum
  it makes the whole packet unreadable (`ColonInFirstValueRefused`); in a later one the
  part before it is added to the datum before and only the rest is read as the value
  (`ColonInLaterValueMisread`, `MisreadSet`).
* A file rewritten in place is only read from the start if it is shorter than when last
  opened or its first bytes changed. A file that shrank below the position need not be
  either (`RewriteNoticedExactly`, `ShrinkMayBeMissed`).
* After an update of a service a pod that no longer matches keeps listing it:
  `StaleListing` is a run that shows it, `UpdatedServiceIsListed` says when.
* Log points of one second are said to be reduced to their median; the code takes the last
  (`LastOfTwoIsReported`). It is the median exactly when fewer than half of the values are
  less than it and fewer than half greater (`MedianIsReportedExactly`).
* A point with an old timestamp is accepted for a bucket that was already reported, which
  then has two batches (`LateSampleRepeatsBucket`); without such points no bucket has
  (`NoBucketTwice`).

## Model

| member | source | states |
|---|---|---|
| TransactionRuns.NoStuckFlush | transaction.py:204-254 | in every run, between callbacks a flush is over with nothing running, or a request is outstanding, or something is left to send and a timer will send it; while something is left a timer is set unless every slot is taken |
| TransactionRuns.FlightsInEveryRun | transaction.py:204-231 | no transaction is in flight twice or both in flight and waiting; the running count is exact and within the limit; `tr_error` never meets a missing list; any two requests are at least the throttling delay apart |
| TransactionRuns.QueueConservation | transaction.py:118-155 | count and size fields are those of the queue; every id handed out is in exactly one of queued, evicted, finished; the size limit holds unless a single transaction is queued |
| TransactionRuns.AppendEvictsShortestPrefix | transaction.py:129-135 | making room evicts the shortest sufficient prefix of the queue by latest next flush, or everything |
| TransactionRuns.LatestFirstOrder | transaction.py:131 | the eviction order has every queued transaction once, latest next flush first, ties by age in the queue |
| TransactionRuns.RetriesAreBounded | transaction.py:256-280 | no transaction is sent more than the error limit plus one times, and none queued has more errors than the limit |
| TransactionRuns.SendsAreOrdered | transaction.py:181-184 | within one flush requests go out by increasing error count, newest first among equals |
| TransactionRuns.BreakerBounds | transaction.py:282-296 | an endpoint that reached the limit in this flush has nothing left to send in it, and its count stays within limit + parallelism - 1 |
| TransactionRuns.AnswersMakeProgress | stsagent.py:271-281 | every answer, with the `flush_next` after it, strictly lowers what is left of the flush |
| TransactionRuns.TimersMakeProgress | transaction.py:234-243 | a timer never adds work, and lowers it when the delay is over and a slot is free |
| TransactionRuns.FlushEnds | transaction.py:204-254 | in every run, from any state on, a flush has no more answers and due timers than there is work left, and is over when there have been as many, whatever else happens in between |
| TransactionRuns.NoWorkIsOver | transaction.py:247-254 | the flush is over exactly when nothing is left to send or to be answered |
| TransactionRuns.StepInv | stsagent.py:193-281 | every event the loop can call keeps the whole invariant |
| TransactionEffects.FlushSends | transaction.py:157-184 | in every run a flush that finds something due sends exactly when its set-up took less than ten seconds and the throttling delay is over; the first to go was due and no due one has fewer errors, or as many and a newer id; else all due are put off, or wait for a timer that is set |
| TransactionEffects.FlushDeals | transaction.py:157-184 | every due transaction is sent by the flush, still waits in it, or is put off; only due ones are sent, the others keep their state; during a flush another one does nothing |
| TransactionEffects.NextSends | transaction.py:204-254 | `flush_next` with something to send: after ten seconds all of it is put off and nothing sent, else the last of the list goes out exactly when the delay is over and a slot is free, else nothing changes but a timer while a slot is free |
| TransactionEffects.AnswersTakeEffect | stsagent.py:271-281 | in every run an answered transaction is no longer in flight; success and rejection take it out of the queue; a failure adds an error and, up to the limit, leaves it queued with its next try at the whole second up to its delay from now and a higher count for its endpoint, above the limit takes it out; transactions that neither wait nor were answered keep their state |
| TransactionEffects.ErrorCountsOnce | transaction.py:282-296 | an error adds one to its endpoint's count, and exactly when this reaches the limit what waits for that endpoint, and nothing else, leaves the flush |
| TransactionEffects.SentTakesEffect | transaction.py:219-231 | a request that raises or is answered at once has the effect of that answer, one that does neither is in flight |
| TransactionEffects.ArrivalIsQueued | transaction.py:118-144 | an arrival is queued last, with no errors and due at its creation; whatever else is queued was so before, all of it if there was room |
| TransactionInvariants.FlushNextInv | transaction.py:204-254 | `flush_next`, re-entrant and ending, keeps the invariant and leaves no stuck flush |
| TransactionInvariants.TrErrorBase | transaction.py:256-296 | an error keeps the invariant, whether the transaction is given up, replayed or trips the breaker |
| TransactionManagers.TransactionManager.Append | transaction.py:118-144 | next id, evictions by latest next flush until there is room, the new transaction last; every field and object moves as the machine's `Append` |
| TransactionManagers.TransactionManager.Remove | transaction.py:146-155 | takes out the first occurrence and corrects count and size, or changes nothing |
| TransactionManagers.TransactionManager.Flush | transaction.py:157-184 | nothing while a flush is under way; else the due transactions sorted by errors and id, a fresh breaker, and the first sends, as the machine's `Flush` |
| TransactionManagers.TransactionManager.FlushNext | transaction.py:204-254 | gives up after ten seconds, sends when delay and parallelism allow, else sets a timer, ends the flush when nothing runs; through all re-entrant calls it ends where the machine's `FlushNext` does |
| TransactionManagers.TransactionManager.TrError | transaction.py:256-296 | one request less running, one error more; given up past the limit, else put back, counted against its endpoint, and the rest of the flush kept off an endpoint that reached the limit |
| TransactionManagers.TransactionManager.TrErrorRejectRequest | transaction.py:298-307 | one request less running, one error more, removed from the queue if still there |
| TransactionManagers.TransactionManager.TrSuccess | transaction.py:318-323 | one request less running, removed from the queue if still there |
| TransactionManagers.TransactionManager.OnResponse | stsagent.py:271-281 | the branch for the response, then `flush_next` |
| TransactionManagers.TransactionManager.OnTimer | transaction.py:234-239 | a timer that fires is used up, and `flush_next` is called, as the machine's `Timer` step |
| TransactionRuns.BackoffIsWholeSecond | transaction.py:52-60 | a failed transaction is tried again at a whole second, less than one before its delay is over and never after |
| TransactionRuns.BackoffGrows | transaction.py:52-60 | more errors or a later failure never bring the next try forward, and it is put off no longer than the maximal wait |
| TransactionRuns.BackoffPerError | transaction.py:52-60 | below the maximal wait each error adds twenty seconds to the second, so a failed transaction is not due again at once |
| WorkPool.ScheduleSafety | checks/libs/thread_pool.py:52-65 | under every interleaving no assertion fails, the result is set at most once and to what running the jobs in order gives, and all results are ready when the last notification arrives |
| WorkPool.NoDeadlock | checks/libs/thread_pool.py:601-628 | when no thread can move, the result has been delivered |
| WorkPool.SchedulesEnd | checks/libs/thread_pool.py:288-313 | every schedule takes at most three steps for each unit and for each job, and one more |
| WorkPool.StepInv | checks/libs/thread_pool.py:288-313 | each thread step keeps the pool's invariant: every job is in exactly one place until its result is set |
| WorkPool.EmptyMapNeverReady | checks/libs/thread_pool.py:230-263 | a call on no elements is never answered, under any schedule |
| WorkPool.GatherValues | checks/libs/thread_pool.py:611-628 | a list is delivered exactly when every job returned, and holds their values in order |
| WorkPool.GatherRaises | checks/libs/thread_pool.py:611-628 | otherwise the exception of the lowest-index failing job is |
| ResultCollectors.MapAsync | checks/libs/thread_pool.py:154-166 | for any function, chunking, worker count and schedule `map_async` ends with exactly one result: the mapped list, or the first failing element's exception |
| ResultCollectors.CreateSequences | checks/libs/thread_pool.py:230-263 | the units are the jobs in order, cut into chunks of the size asked for and a smaller last one; the collector waits for one new result for each job, in order |
| ResultCollectors.OrderedResultCollector.NotifyReady | checks/libs/thread_pool.py:601-628 | the last notification, and only it, sets the outcome of gathering the results in order, and calls back with it on success |
| ResultCollectors.OrderedResultCollector.Deliver | checks/libs/thread_pool.py:611-628 | collects the results in order and stops at the first that raised |
| LeaderElection.LeaseExclusion | utils/kubernetes/leader_elector.py:55-193 | in every run with arbitrary request failures, a leader within its lease is the creator recorded in the ConfigMap with exactly its acquire time, so there is at most one |
| LeaderElection.CallKeeps | utils/kubernetes/leader_elector.py:55-193 | one call keeps this for the caller and for every other agent |
| LeaderElection.AcquiresExactly | utils/kubernetes/leader_elector.py:74-90 | with a working server an agent gets the lock exactly when there is none, it has run out, or it is its own |
| LeaderElection.LeaderStays | utils/kubernetes/leader_elector.py:92-106 | a leader with a live lock keeps it, and renews it from 30 seconds before expiry on |
| LeaderElection.IdleCallChangesNothing | utils/kubernetes/leader_elector.py:55-72 | a leader more than 30 seconds before its lease runs out, and another agent while the lease it saw lasts, ask nothing and change nothing |
| LeaderElection.UnreadableEndsLeadership | utils/kubernetes/leader_elector.py:88-106 | an agent that asks and whose GET has no response, or fetches a lock without an acquire time, does not lead, learns nothing and changes nothing |
| LeaderElection.LiveLockDecides | utils/kubernetes/leader_elector.py:74-106 | with a live lock exactly its creator leads, a leader only if PUT succeeds; the lock and the time remembered in each case |
| LeaderElection.NewLockDecides | utils/kubernetes/leader_elector.py:148-193 | without one an agent leads exactly when none is in the way, DELETE having succeeded or found it gone, and POST succeeds; the lock and the time remembered after each failing request |
| LeaderElection.MalformedLockStays | utils/kubernetes/leader_elector.py:124-143 | a lock without an acquire time is never replaced, and nobody leads, in any run |
| LeaderElection.FlagIsNotExclusive | utils/kubernetes/leader_elector.py:64-72 | a run, with a lease of five minutes, in which two agents have the flag set |
| LeaderElection.FlagIsSharedExactly | utils/kubernetes/leader_elector.py:64-90 | while one agent has flag and lock, another that looks for the lock gets the flag too exactly when the lease has run out |
| LeaderElection.FlagIsExclusiveWhenPunctual | utils/kubernetes/leader_elector.py:30-35 | in every run in which no lease runs out but in its holder's own call, whoever has the flag is the creator recorded in the ConfigMap, so at most one has it |
| LeaderElection.LeaderElector.TryAcquireOrRefreshLock | utils/kubernetes/leader_elector.py:55-72 | a leader refreshes from 30 seconds before expiry on, any other agent tries to acquire once the lock it knows has expired; agent and ConfigMap move as the machine's step |
| LeaderElection.LeaderElector.TryAcquireLock | utils/kubernetes/leader_elector.py:74-90 | locks when there is no ConfigMap or an expired one, leads when a live one is its own, and does not lead after any exception |
| LeaderElection.LeaderElector.TryRefreshLock | utils/kubernetes/leader_elector.py:92-106 | as an acquire when the lock is gone or expired, gives up when it is another's, else renews it |
| LeaderElection.LeaderElector.GetCm | utils/kubernetes/leader_elector.py:108-129 | raises exactly when there was no response or no acquire time; else gives the ConfigMap and remembers its acquire time exactly when one was fetched, any error status looking like none |
| LeaderElection.LeaderElector.TryLockCm | utils/kubernetes/leader_elector.py:145-176 | delete then post; taken only if the post succeeded |
| LeaderElection.LeaderElector.TryRefreshCm | utils/kubernetes/leader_elector.py:178-193 | replaces the acquire time; kept only if the request succeeded |
| BucketRuns.CounterConservation | aggregator.py:790-872 | over any run of a new aggregator, for every bucket and context: what counter samples were accepted for is what was reported times the interval, plus what expiry dropped, plus what waits |
| BucketRuns.NoBucketTwice | aggregator.py:843-892 | in every run in which each sample, whatever its timestamp, is discarded or goes to a bucket from the last cutoff on, all batches are in strictly increasing bucket order, real values and zero-fills together, so no counter gets two points for one bucket |
| BucketRuns.LateSampleRepeatsBucket | aggregator.py:804-813 | a run in which a late sample gives one bucket two batches and a counter two points for it |
| BucketRuns.FlushWindow | aggregator.py:843-892 | in every such run a flush reports only buckets from the previous cutoff up to this one, in increasing order |
| BucketRuns.PromptFlushLosesNothing | aggregator.py:859-863 | the expiry branch drops only zeros when no bucket waits that began longer ago than the expiry time |
| BucketRuns.PromptRunsLoseNothing | aggregator.py:790-872 | over whole runs with such flushes and no samples stamped ahead of the clock, all that was accepted is what was reported times the interval plus what waits |
| BucketRuns.TellsItsBucket | aggregator.py:857-868 | what a flush drops had expired, and gauges carry the value that waited in that bucket |
| BucketRuns.GaugesReportLatest | aggregator.py:92-138 | in every run a flush reports of a gauge the last value sampled for its bucket |
| BucketRuns.KeepsReporting | aggregator.py:830-841 | a registered counter that has not expired is in every batch of a flush, zero or not |
| BucketRuns.StopsReporting | aggregator.py:833-836 | one that has expired and has no new samples is in none, and is forgotten once anything is reported |
| BucketRuns.StoredIsRecent | aggregator.py:804-813 | no bucket is made that is older than the recent-point threshold allows |
| BucketRuns.VerdictTellsEffect | aggregator.py:805-828 | a stored sample adds its weight to its counter, or is the value of its gauge, and no other metric changes; discarded points, unknown types and zero sample rates change no value |
| BucketEffects.SamplesShareMetric | aggregator.py:797-828 | two samples stored for one bucket go to one metric exactly when name, set of tags, host (the aggregator's own when none is given) and device are the same |
| BucketEffects.ContextDescribes | aggregator.py:795-802 | a context is a sample's exactly when it has its name, host and device and its tags in ascending order, each once |
| BucketEffects.ReportsDescribeSamples | aggregator.py:789-872 | in every run each value reported has the name, tags, host and device of some sample |
| BucketEffects.StoredExactly | aggregator.py:804-828 | a sample is stored exactly when it is no older than the threshold, its metric is there or of a known type, and it is not a counter's with a rate of zero |
| BucketEffects.StoredTakesEffect | aggregator.py:811-828 | a stored sample adds its value times the inverted rate, truncated, to its counter, or becomes the value of its gauge, in the bucket of its timestamp or else of the clock; no other metric changes |
| BucketEffects.FlushShowsWhatWaits | aggregator.py:843-870 | a flush takes exactly the buckets that are over, and reports from each every unexpired counter as its rate and every unexpired gauge with a value |
| BucketEffects.ShownCounterIsRegistered | aggregator.py:864-868 | a counter that is reported is registered with its last sample |
| BucketEffects.QuietFlushReportsZeros | aggregator.py:873-878 | with nothing waiting a flush reports a zero for each unexpired registered counter once an interval has gone by, and forgets the others |
| BucketMachine.StartByRemainder | aggregator.py:787-788 | the last multiple of the interval is what the remainder formula computes, for times of either sign |
| BucketAggregators.MetricsBucketAggregator.SubmitMetric | aggregator.py:790-828 | submission through the cached bucket is submission through the outer dictionary, with the same verdict |
| BucketAggregators.MetricsBucketAggregator.MetricsOf | aggregator.py:814-821 | the cached dictionary is the very object the outer dictionary has for the bucket |
| BucketAggregators.MetricsBucketAggregator.Flush | aggregator.py:843-892 | buckets that are over are reported in order and removed, zeros filled in, the cache emptied and the cutoff kept; the list returned has each value of each batch once, batch after batch |
| BucketAggregators.MetricsBucketAggregator.FlushMetrics | aggregator.py:856-868 | one bucket's metrics: the expired are dropped, the others flushed, counters registered, in whatever order |
| BucketAggregators.MetricsBucketAggregator.CreateEmptyMetrics | aggregator.py:830-841 | zeros for exactly the registered counters that have not expired; the others are forgotten |
| BucketAggregators.ListedOnce | aggregator.py:848-892 | no list returned for increasing batches has two values of one kind for the same context and bucket |
| BucketAggregators.Metric.Sample | aggregator.py:233-235 | a counter adds the value times the whole part of one over the rate, a rate of zero raises and changes nothing, a gauge keeps the last value |
| BucketAggregators.Metric.Flush | aggregator.py:237-251 | a counter reports its value over the interval and restarts at zero; a gauge reports its value if it has one |
| Strings.CanonicalIff | aggregator.py:799-802 | two tag lists give one context exactly when they hold the same tags |
| Strings.LeqExactly | aggregator.py:802 | strings are in the order of their first characters that differ, a prefix first |
| Strings.CanonicalAscending | aggregator.py:802 | the tags of a context are strictly ascending and just those given |
| MonotonicCounts.RunCounts | aggregator.py:187-218 | over any interleaving of samples and flushes, reported plus pending is the sum of the rises between consecutive samples |
| MonotonicCounts.SampleAddsItsRise | aggregator.py:187-218 | each sample adds what it exceeds the one before by, and exactly nothing if it falls or is the first |
| MonotonicCounts.FlushPlacementIsIrrelevant | aggregator.py:187-218 | two runs with the same samples report the same in all, wherever the flushes fall |
| MonotonicCounts.FallsAreIgnored | aggregator.py:194-197 | the rises add up to last minus first exactly when no sample falls, and to more otherwise |
| MonotonicCounts.MonotonicCount.Sample | aggregator.py:187-199 | adds the rise over the previous sample, if there was one, and remembers this one |
| MonotonicCounts.MonotonicCount.Flush | aggregator.py:201-218 | reports the count and forgets it but not the last sample; with nothing counted it changes nothing |
| MetricPackets.RoundTrip | aggregator.py:468-538 | printing datums, joining them with ':' and parsing gives back what they mean, tags sorted, when in each a ':' stands only in the field printed last |
| MetricPackets.RefusedExactly | aggregator.py:494-533 | a packet is refused exactly when one of its datums is |
| MetricPackets.ShortTextsRefused | aggregator.py:476-498 | a packet without a colon and a datum without a bar are refused |
| MetricPackets.MetadataPieces | aggregator.py:523-534 | an empty piece ends the optional ones, an unknown one is skipped, the last rate and the last tags count |
| MetricPackets.PrintsMendExactly | aggregator.py:480-492 | of datums without '\|' in their fields the texts survive joining, splitting and mending exactly when in each a ':' stands only in the field printed last |
| Strings.SortedTags | aggregator.py:531 | the tags of a metric are in order, and just those given |
| MetricPackets.MendsExactly | aggregator.py:480-492 | splitting and mending gives any datums back exactly when none has a '\|' after a ':' and each but the first has one before |
| MetricPackets.MendKeepsText | aggregator.py:483-492 | mending keeps the packet's text, whatever it is |
| MetricPackets.ColonInFirstValueRefused | aggregator.py:483-498 | a ':' before the packet's first '\|' makes it unparseable |
| MetricPackets.ColonInLaterValueMisread | aggregator.py:483-492 | a ':' in a later value: what is before it ends up in the last field of the datum before, and only the rest is the value |
| MetricPackets.MisreadSet | aggregator.py:483-492 | a packet of a tagged counter and a set in which that happens |
| MetricPackets.FixTagGroups | aggregator.py:481-492 | the repair loop computes the mended datums |
| MetricPackets.ParseMetadata | aggregator.py:520-534 | the metadata loop: a bad rate raises, one outside 0 to 1 counts as 1, an empty piece ends it |
| MetricPackets.ParseMetricPacket | aggregator.py:468-538 | the whole loop, with its errors, is the function that the round trip is about |
| PayloadSplitter.ChunksAsCounted | emitter.py:177-181 | the number and the size of the chunks, from the sizes, the limit and half the compression ratio, all rounded down |
| PayloadSplitter.SentIsInputUnlessDropped | emitter.py:154-196 | what is sent is short of the input by just the series in dropped chunks; all sent are below the limit, and only chunks three levels down that are still too big are dropped |
| PayloadSplitter.SmallStretchesAreSent | emitter.py:177-194 | all of the input is sent, in order, when every stretch of it fits that is no longer than its length halved and one added, three times over |
| PayloadSplitter.FirstThatNeverFitsIsLost | emitter.py:168-194 | for any sizes, something is lost when neither the series nor its first chunk, nor the first chunk of that, down to the last level, is below the limit |
| PayloadSplitter.SentExactlyWhen | emitter.py:168-194 | when, up to the input's length, longer lists are not smaller and big ones not cut into shorter chunks, all is sent if and only if one of these is below the limit |
| PayloadSplitter.EdgesThatNeverFitAreLost | emitter.py:168-194 | for any sizes, something is lost when the first or the last chunk does not come to fit |
| PayloadSplitter.SentExactlyByLength | emitter.py:168-194 | when sizes go by length, all is sent if and only if the input fits or its first and its last chunk do, at once or by further cuts |
| PayloadSplitter.BigStretchIsLost | emitter.py:173-181 | first halves that stay too big at every level are lost |
| PayloadSplitter.PairSentExactly | emitter.py:178-188 | a pair that is too big, each of which fits, is sent exactly when it is to be cut in three or more |
| PayloadSplitter.PairMayBeLost | emitter.py:178-188 | there are sizes for which each of two series fits and both are lost |
| PayloadSplitter.Partition | emitter.py:177-194 | the chunks, sent or dropped, make up the input: every series once, in order |
| PayloadSplitter.PiecesLawful | emitter.py:168-175 | no chunk is decided deeper than three levels down; sent ones fit, dropped ones do not |
| PayloadSplitter.PairStaysTogether | emitter.py:178-188 | a pair to be cut in two chunks is sent whole if it fits and else lost |
| PayloadSplitter.SerializeAndCompress | emitter.py:154-196 | the recursive method sends the payloads of the pieces |
| PodServiceMapping.EveryRunKeepsInv | utils/kubernetes/pod_service_mapper.py:28-189 | in every run of a new mapper mapped pods have their labels cached and list no service twice, cached services have a selector and a name, and the mapper is disabled exactly after four refusals |
| PodServiceMapping.MatchesUnion | utils/kubernetes/pod_service_mapper.py:105-118 | two selectors that agree where they overlap are matched together exactly when each is matched |
| PodServiceMapping.MatchesOne | utils/kubernetes/pod_service_mapper.py:115-118 | a selector of one label is matched by a pod with that label and value, or without it when the value is empty |
| PodServiceMapping.EmptyNeverMatches | utils/kubernetes/pod_service_mapper.py:113-114 | a pod without labels matches nothing, and an empty selector is matched by nothing |
| PodServiceMapping.OtherLabelsDoNotMatter | utils/kubernetes/pod_service_mapper.py:115-118 | labels that a selector does not ask for make no difference to a pod that has some |
| PodServiceMapping.PodServiceMapper.DoesPodFulfillSelectors | utils/kubernetes/pod_service_mapper.py:104-118 | the loop over the selector decides this |
| PodServiceMapping.FoundByLastLabels | utils/kubernetes/pod_service_mapper.py:64-145 | a pod is found for a service by the labels it was last matched with, even when its services were not looked up again |
| PodServiceMapping.KilledPodIsForgotten | utils/kubernetes/pod_service_mapper.py:160-166 | a killed pod lists nothing and is found for nothing; the others are as before |
| PodServiceMapping.FailuresAreCounted | utils/kubernetes/pod_service_mapper.py:28-62 | each refusal counts, the fourth disables; after any failure no service is cached and nothing is asked until the next event |
| PodServiceMapping.ServiceEventsRefresh | utils/kubernetes/pod_service_mapper.py:171-176 | after a batch with an event about a service, the services cached are none older than the batch, or are marked invalid |
| PodServiceMapping.MatchingIsDual | utils/kubernetes/pod_service_mapper.py:64-145 | a service is among a pod's refreshed matches exactly when the pod is then found for the service, whatever the server answered |
| PodServiceMapping.ReturnsEditedPods | utils/kubernetes/pod_service_mapper.py:147-189 | a batch of events returns exactly the pods whose list some event of it edited |
| PodServiceMapping.UpdatedServiceIsListed | utils/kubernetes/pod_service_mapper.py:182-187 | after a created or updated event a mapped pod lists the service exactly when it matches or listed it before, and nothing else changes |
| PodServiceMapping.StaleListing | utils/kubernetes/pod_service_mapper.py:182-187 | a run of a new mapper after which a pod lists a service that it does not match, and is not found for it |
| PodServiceMapping.DeletedServiceIsGone | utils/kubernetes/pod_service_mapper.py:177-181 | after a deletion no pod lists the service, and nothing else went |
| PodServiceMapping.OneRequestPerBatch | utils/kubernetes/pod_service_mapper.py:172-174 | a batch makes at most one request for services, and then the cache is valid |
| PodServiceMapping.DisabledForGood | utils/kubernetes/pod_service_mapper.py:33-56 | once disabled, nothing changes and nothing is asked again |
| PodServiceMapping.CacheHoldsLast | utils/kubernetes/pod_service_mapper.py:40-47 | the cache has selector and name of the last usable service of each uid |
| PodServiceMapping.UsableIsCached | utils/kubernetes/pod_service_mapper.py:40-47 | every service with a uid and a selector is in the cache |
| PodServiceMapping.PodServiceMapper.FillServicesCache | utils/kubernetes/pod_service_mapper.py:28-62 | the usable services of the answer; after a failure an empty cache that counts as valid; after the fourth refusal disabled |
| PodServiceMapping.PodServiceMapper.MatchServicesForPod | utils/kubernetes/pod_service_mapper.py:64-102 | answers the cached list, or the matching services once each in any order, and keeps what it answered |
| PodServiceMapping.PodServiceMapper.SearchPodsForService | utils/kubernetes/pod_service_mapper.py:120-145 | the pods whose cached labels fulfil the selector, once each |
| PodServiceMapping.PodServiceMapper.ProcessEvents | utils/kubernetes/pod_service_mapper.py:147-189 | kills forget the pod, the first service event invalidates the cache once, deletions and updates edit the lists; state and result are the machine's |
| TailFiles.ReadsStretches | utils/tailfile.py:20-98 | over any run without rewrites in place, whatever files grow or take the path: the lines read are stretches, one of each file opened and in order, each after the first from byte 0, so just what is past a stretch when its file is left is never read |
| TailFiles.AppendOnlyConserves | utils/tailfile.py:20-98 | when no other file takes the path, the lines read are the file from where the tailer began to its position |
| TailFiles.ResumeTours | utils/tailfile.py:40-58 | in such runs going on starts over exactly when another file took the path |
| TailFiles.EmptyLineMeansAllRead | utils/tailfile.py:81-97 | every read moves on until the end of the open file, and an empty line says that all of it was delivered |
| TailFiles.RewriteNoticedExactly | utils/tailfile.py:47-58 | when a rewrite in place, made while the tailer reads or waits, is noticed the next time it goes on; and that the position stays past the end of an unnoticed one, where nothing is read |
| TailFiles.ShrinkMayBeMissed | utils/tailfile.py:48 | a run in which the file shrinks below the position and reading does not restart |
| TailFiles.LineIsDelivered | utils/tailfile.py:85-86 | of a line without holes the callback gets all but the newline |
| TailFiles.DeliveredExactly | utils/tailfile.py:84-86 | the callback gets the line without the holes at its ends, and of that without the newlines at the end |
| TailFiles.TailFile.OpenFile | utils/tailfile.py:20-72 | remembers inode, size and checksum of the file and goes to its end, to the position given or, if it looks new, to the start |
| TailFiles.TailFile.ReadLine | utils/tailfile.py:82-86 | reads up to and with the next newline or to the end of the file, moves by as much, and hands over the text stripped of holes and of newlines at its end |
| TopologySnapshots.MarksAlternate | checks/__init__.py:329-361 | without explicit clears the start and stop marks handed over for an instance alternate, beginning with a start |
| TopologySnapshots.OpenIsShown | checks/__init__.py:356-360 | a false stop mark is shown exactly when the marks leave a snapshot open, a false start mark when it was open before, too |
| TopologySnapshots.HandedExactlyOnce | checks/__init__.py:317-327 | without explicit clears, every component and relation added while no snapshot had been stopped since the last collection is handed over once and in order, or still waits |
| TopologySnapshots.RaisesExactly | checks/__init__.py:317-344 | components and relations are refused exactly when a snapshot was stopped since the last collection or clear, starts also while one is open, stops exactly while none is |
| TopologySnapshots.HandedAsGathered | checks/__init__.py:317-361 | with clears, too: a collection hands over exactly what was accepted since the last collection or clear, in order |
| TopologySnapshots.ForgettingIsUnobservable | checks/__init__.py:854-865 | a check that never forgets an instance behaves the same, but for topologies with nothing in them |
| TopologySnapshots.TopologyInstance.Act | checks/__init__.py:317-344 | the five actions on an instance; one that raises changes nothing |
| TopologySnapshots.AgentCheck.Act | checks/__init__.py:705-727 | an action on a key makes the instance if need be, even when it then raises |
| TopologySnapshots.AgentCheck.GetTopologyInstances | checks/__init__.py:854-865 | hands over each instance once, clears them and keeps those in a snapshot |
| LogPointAggregation.OneAggregatePerKey | checks/datadog.py:294-334 | exactly one aggregate for each key with a number, in strictly increasing key order: the sum for counters, else the last value in order of arrival, attributes merged in that order |
| LogPointAggregation.ReportedExactly | checks/datadog.py:294-331 | what is reported of a key, over the points as they arrived: the sum of the numbers if the metric type says counter in any case, else the last; each attribute as the last point with a number has it that has it |
| LogPointAggregation.KeyIsReported | checks/datadog.py:306-322 | a key is reported exactly when one of its points has a number |
| LogPointAggregation.BeforeExactly | checks/datadog.py:24-26 | the first component of two keys that differs decides, None before every string |
| LogPointAggregation.MedianIsReportedExactly | checks/datadog.py:294-325 | for a key that is no counter the value reported is the median of its values exactly when fewer than half of them are less than the last one and fewer than half greater |
| LogPointAggregation.LastOfTwoIsReported | checks/datadog.py:319-320 | of two points with values 1 and 3 the report is 3, and the median 2 |
| LogPointAggregation.SortedFilters | checks/datadog.py:303 | sorting keeps the points of each key in order of arrival |
| LogPointAggregation.SortedAscends | checks/datadog.py:24-26 | the list is sorted by time, metric, host and device, None before strings |
| LogPointAggregation.KeyTransitive | checks/datadog.py:24-26 | the order of keys is transitive, None before strings |
| LogPointAggregation.SummaryKey | checks/datadog.py:308-329 | the merged attributes still have the key's host and device |
| LogPointAggregation.AggregateAll | checks/datadog.py:294-334 | sorts in place and returns the aggregates of the runs of equal keys |
| LogPointAggregation.SummarizeGroup | checks/datadog.py:306-329 | the loop over one group: values without a number are skipped with their attributes |

## Left out

- Transaction queue: HTTP and the mapping of response codes; the logging and status counters; running without an event loop. Queue events cover the copies that one transaction is fanned out to; a timer may fire at any time, which includes the right one.
- Thread pool: `imap`, unordered results, closing, terminating and time-outs; other calls that share the work queue.
- Leader election: interleaving of the requests of two calls, where exclusion does not hold; agents with different lease durations or clocks that disagree.
- Aggregator: histograms, sets and raw metrics; events and service checks; decoding, magic tags and packet counts. Tags of a point are those of its context rather than as first submitted.
- Aggregator: `float` arithmetic, infinities and NaN; values and rates are real, times are whole numbers.
- MonotonicCounts.MonotonicCount.Sample: the time of the last sample, which only another aggregator's expiry reads.
- MetricPackets.ParseMetricPacket: `int` and `float` on text are abstract functions.
- PayloadSplitter.SerializeAndCompress: JSON and zlib are two abstract size functions; a payload is its list of series.
- PodServiceMapping.PodServiceMapper.MatchServicesForPod: the option to answer names instead of uids, and pods without a uid.
- TailFiles.TailFile.ReadLine: the generator around it; its pauses are events of the runs. A missing file, which ends the generator.
- TopologySnapshots.MarksAlternate: explicit clears, which take marks and data back; the actions themselves include them.
- LogPointAggregation.AggregateAll: parsing of log lines; lower case is that of ASCII letters.
- Other parts of the agent: configuration, host and container detection, the checks themselves, flare, status pages, JMX; they would add little but plumbing.
