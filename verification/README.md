# Verification of the monitor agent

This project models the stateful core of the monitor agent in Dafny 4.11 and proves what it keeps over whole
runs: the identity directory that several processes share, the bounded offline store, the delivery pipeline
around it, the log buffer, the heartbeat, the life of a command, and the parsing, selection, retry and pairing
algorithms. `dafny verify dfyconfig.toml` checks everything.

The code that changes state step by step is written as methods and classes (`Identity.IdentityDir`,
`Cache.Cache`, `LogSlices.LogBuffer`, `Heartbeat.HeartbeatLoop`, `Command.Handler`, and the loops in
`Batching`, `ConfigFile`, `Executor`, `Table`, `Sessions`, `Fingerprint`, `Retry` and `Pairing`). Each is proved equal to a
specification function, or to a property stated outright, and the whole-run theorems are proved about those
functions. What runs concurrently (processes on one directory, goroutines, handlers) is a machine whose events
interleave in any order; an event that is not enabled leaves the state as it is.

| file | what it holds |
|---|---|
| `Identity.dfy`, `KeyPairs.dfy` | LoadOrCreate as a multi-process machine with crashes, and as the sequential code that walks it; what becomes of a key pair without its node id |
| `CacheSpec.dfy`, `Cache.dfy`, `CacheRuns.dfy`, `CacheBytes.dfy` | the store as functions, as the object with its loops, and over runs: its queues and its bytes |
| `FileNames.dfy` | why the order of file names is the order of (kind, time stamp) |
| `Delivery.dfy`, `DeliveryRuns.dfy`, `Batching.dfy` | metrics, logs and recovery goroutines over the store; what they get done; the metrics loop on its own |
| `Logger.dfy`, `LogSlices.dfy` | sequence numbers under concurrency; Go slices that share an array |
| `Heartbeat.dfy` | when a heartbeat carries extra data, and how often |
| `Command.dfy`, `Executor.dfy`, `ConfigFile.dfy` | channel, dispatch and report traces; status range and reply extraction; the configuration file |
| `Table.dfy`, `Sessions.dfy`, `Fingerprint.dfy` | table reader and its inverse; session selection; canonical form |
| `Retry.dfy`, `Pairing.dfy`, `Durations.dfy` | back-off and pairing loops, with 64-bit durations |
| `Strings.dfy`, `JsonValue.dfy`, `Wrappers.dfy` | trimming, string order, decoded JSON, Option |

What is false of the code is kept as it is, with an input that shows it and the exact condition under which it holds:

- Files, counter and index of the store agree after every operation of a run if and only if every operation is one
  that keeps them so (`CacheBytes.ExactThroughoutExactly`, with the condition in `CacheBytes.KeepsExact`). A push that
  is refused, or whose entry cannot be written, keeps them so only if it evicted no bytes
  (`CacheBytes.FullPushExample`, `CacheBytes.FailedWriteExample`); internal/cache/cache.go:89-98 evicts first and saves
  no index on those paths.
- After a refused push and a restart the evicted bytes are charged against the budget: until the next restart that is
  exactly what later pushes are refused for (`CacheBytes.EvictedBytesHauntTheBudget`), and as long as pushes save the
  index no number of restarts gives the bytes back (`CacheBytes.EvictedBytesAreNeverRefunded`).
- A failed index write after an entry has been written breaks the order "files at most counter" at the next
  restart if and only if fewer bytes were evicted than written (`CacheBytes.LostIndexBreaksBalance`).
- File names of one kind sort by time if and only if the time stamps have equally many digits, or the earlier one
  does not exceed the leading digits of the later one (`FileNames.NamesSortByTimeExactly`).
- A matching key pair beside a missing, blank or foreign node id survives every run when the keys are in files
  (`KeyPairs.FilePairSurvives`). In the Keychain it survives every run if and only if the directory names a node
  whose own two keys match or cannot be parsed (`KeyPairs.KeychainPairSurvivesExactly`).
- A key file that cannot be parsed is never repaired (`Identity.BrokenStaysBroken`).
- When nothing is pending, the log lines of all goroutines stand in numeric order if and only if whoever entered the
  buffer held the smallest pending number each time (`Logger.AllLinesInOrderExactly`).
- A table is read back if and only if it has no rows to lose or no line from its heading to just before its header
  row starts a section (`Table.RoundTripExactly`); the agent's own "Channels" lookup can fail this
  (`Table.ChannelsTableIsLost`).
- The back-off law holds if and only if the ceiling does not lie past the first doubling that leaves 64 bits
  (`Retry.LawHolds`); past it the next interval is negative (`Retry.OverflowsPastThePeak`).
- A code is polled within its budget of ceil(expires_in / 3) in every run if and only if expires_in is not negative or
  its nanoseconds, wrapped at 64 bits, are not positive (`Pairing.BudgetKeptExactly`); -9223372037 is the
  largest value for which it fails (`Pairing.WrapExample`).

The comparison of the extra-data hash (cmd/agent/main.go:311 and cmd/agent/main.go:334) and the second failure branch
of `execMessage` (internal/command/executor.go:444-446) never decide anything; `Heartbeat.HeartbeatLoop.SendHeartbeat`
and `Executor.ExecMessage` hold without them.

## Model

| member | source | states |
|---|---|---|
| Identity.IdentityDir.LoadOrCreate | internal/identity/identity.go:26-101 | the sequential call is a run of the machine from its own directory to its own result; a success is what the disk then holds; with no I/O failure it fails only on an unparsable key file |
| Identity.IdentityDir.LoadOrCreateNodeId | internal/identity/identity.go:103-119 | a stored id is returned and nothing is written; otherwise the fresh id is returned and reads back from disk |
| Identity.IdentityDir.LoadOrGenerateKeys | internal/identity/identity.go:52-100 | without I/O failures it fails exactly when both key files exist and one is malformed |
| Identity.IdentityDir.GenerateAndSave | internal/identity/identity.go:77-100 | success means the new, matching pair is what the directory holds |
| Identity.IdentityDir.SavePrivateKey | internal/identity/keystore_darwin.go:20-37 | success means the slot holds the key, whether the store is a file or a Keychain that refuses duplicates |
| Identity.FreshNodeIdReadsBack | internal/identity/identity.go:103-119 | writing an id with its newline and trimming on reading give the id back |
| Identity.StepKeepsIdentity | internal/identity/identity.go:26-101 | no step of the lock holder replaces a complete identity, and what the holder remembers stays true of the disk |
| Identity.NextKeepsInv | internal/identity/identity.go:26-154 | every step and every crash keeps: one lock holder, every process up to date, a complete identity unchanged |
| Identity.ReachableInv | internal/identity/identity.go:26-154 | the invariant in every reachable state, from a directory in any condition |
| Identity.Agreement | internal/identity/identity.go:26-154 | all calls that succeed, in all processes, over all crashes, return the same node id and the same matching key pair |
| Identity.NeverOverwritten | internal/identity/identity.go:26-154 | a complete identity on disk (node id and matching pair) survives every continuation of every run |
| KeyPairs.FilePairSurvives | internal/identity/identity.go:26-119 | with key files a matching pair survives every continuation of every run, even beside a missing or blank node id |
| KeyPairs.SettledNeverChanges | internal/identity/identity.go:52-75 | a directory that names a node and has both its keys, matching or unparsable, is never written |
| KeyPairs.PairReplaced | internal/identity/keystore_darwin.go:20-37 | from any other directory an undisturbed call replaces the public key of a Keychain pair |
| KeyPairs.KeychainPairSurvivesExactly | internal/identity/identity.go:52-100 | a Keychain pair survives every run if and only if the directory is settled |
| KeyPairs.BlankNodeIdExample | internal/identity/identity.go:103-119 | a concrete directory without a node id file whose Keychain pair does not survive |
| Identity.MutualExclusion | internal/identity/identity.go:140-154 | at most one call is inside the critical section |
| Identity.BrokenStaysBroken | internal/identity/identity.go:58-66 | with one key file malformed no call ever succeeds and the directory never changes |
| Cache.Cache.New | internal/cache/cache.go:37-65 | a new process takes its counter from the index; the budget defaults to 50 MB |
| Cache.Cache.DropOldest | internal/cache/cache.go:152-180 | removes exactly the first listed file of least modification time and its bytes, and reports an empty directory |
| Cache.Cache.MakeRoomFor | internal/cache/cache.go:89-93 | the eviction loop ends and is MakeRoom; the number of files is its measure |
| Cache.Cache.Push | internal/cache/cache.go:73-102 | whole new state and result on every path: full, write failed, index failed, stored |
| Cache.Cache.PopKind | internal/cache/cache.go:114-150 | removing files one by one while walking a listing amounts to taking the first max of the kind |
| CacheSpec.Oldest | internal/cache/cache.go:157-174 | least modification time, first in listing order among equals |
| CacheSpec.MakeRoomPartitions | internal/cache/cache.go:89-93 | what is dropped and what is kept are together the files, bytes included |
| CacheSpec.MakeRoomDropsOldest | internal/cache/cache.go:152-180 | the dropped files come in (mtime, name) order and before every kept file |
| CacheSpec.MakeRoomIsMinimal | internal/cache/cache.go:89-93 | no shorter prefix makes room; refusal only with the directory empty |
| CacheSpec.PushEvictsMinimally | internal/cache/cache.go:89-101 | Push drops exactly the shortest prefix of the age order that makes the entry fit, and is full if and only if the entry exceeds the budget less the bytes no file holds |
| CacheSpec.EvictionDropsAHead | internal/cache/cache.go:152-180 | eviction across both kinds takes the head of one queue and leaves the other |
| CacheSpec.MakeRoomDropsHeads | internal/cache/cache.go:89-93 | any number of evictions drops a head of each queue |
| CacheSpec.WriteAdds | internal/cache/cache.go:95-100 | a write under a new name adds one file and its bytes |
| CacheSpec.WriteAppends | internal/cache/cache.go:95-100 | the newest file joins the end of its own queue |
| CacheSpec.TakePopsTheHead | internal/cache/cache.go:123-147 | a pop returns the first max of its queue, oldest first |
| CacheSpec.TakeLeavesTheRest | internal/cache/cache.go:123-147 | and leaves exactly the rest of that queue |
| CacheSpec.TakeSparesTheOther | internal/cache/cache.go:130-134 | and leaves the other queue untouched |
| CacheSpec.TakePartitions | internal/cache/cache.go:123-147 | nothing is lost or invented between what a pop returns and what it leaves |
| CacheRuns.ApplyRefinesQueues | internal/cache/cache.go:73-180 | each operation is a step of two FIFO queues: some heads go, a landed entry joins its queue's end |
| CacheRuns.FilesAreASuffix | internal/cache/cache.go:73-180 | after any run the files of each kind are a suffix of that kind's landed pushes |
| CacheRuns.PopIsFifo | internal/cache/cache.go:104-150 | after any run a pop returns the oldest survivors in push order and spares the other kind |
| CacheBytes.ApplyKeepsBalance | internal/cache/cache.go:54-101 | one operation keeps files <= counter <= index <= budget |
| CacheBytes.BalanceOverRuns | internal/cache/cache.go:54-150 | so does every run with restarts, even when names collide |
| CacheBytes.LostIndexBreaksBalance | internal/cache/cache.go:101 | after a failed index write the order survives a restart if and only if the push evicted at least what it wrote |
| CacheBytes.PushBooks | internal/cache/cache.go:73-102 | what a push does to the three numbers, given the bytes it evicts and its result |
| CacheBytes.ApplyKeepsDrift | internal/cache/cache.go:100-146 | the gap between counter and files changes only by a restart |
| CacheBytes.DriftOverRuns | internal/cache/cache.go:100-146 | over every run without a restart the gap stays what it was |
| CacheBytes.ApplyKeepsExact | internal/cache/cache.go:54-150 | an exact store stays exact if and only if the push is stored, or fails to save the index after evicting as much as it wrote, or fails otherwise after evicting nothing, and the pop saves the index or takes nothing |
| CacheBytes.ExactThroughoutExactly | internal/cache/cache.go:54-150 | over runs with restarts the three agree after every operation if and only if every operation meets that condition |
| CacheBytes.ExactWhileSucceeding | internal/cache/cache.go:54-150 | in particular while every operation succeeds |
| CacheBytes.FailedWriteExample | internal/cache/cache.go:96-98 | a concrete failed write after an eviction, with the index left behind |
| CacheBytes.FullExactly | internal/cache/cache.go:89-93 | a push is refused exactly when the entry does not fit beside the bytes no file accounts for |
| CacheBytes.FullPushLeavesIndexBehind | internal/cache/cache.go:89-93 | a refused push leaves an empty directory and the old index; the three still agree if and only if there was nothing to evict |
| CacheBytes.FullPushExample | internal/cache/cache.go:89-93 | a concrete refused push after which files and index disagree |
| CacheBytes.LostIndexExample | internal/cache/cache.go:101 | a concrete failed index write after which a restart undercounts the files |
| CacheBytes.EvictedBytesHauntTheBudget | internal/cache/cache.go:89-93 | after a restart from there and until the next one, a push is refused exactly when it exceeds the budget less the evicted bytes |
| CacheBytes.DriftNeverShrinks | internal/cache/cache.go:54-102 | over runs with restarts, the counter never comes closer to the files while pushes save the index |
| CacheBytes.EvictedBytesAreNeverRefunded | internal/cache/cache.go:54-102 | so further restarts leave what does not fit beside the evicted bytes refused for good |
| FileNames.DecimalOrder | internal/cache/cache.go:95 | decimal numerals of one length sort as their values |
| FileNames.FileNameOrder | internal/cache/cache.go:95 | rendered names sort as (kind, stamp) at equal digit counts |
| FileNames.FileNamesDiffer | internal/cache/cache.go:95 | different entries have different names, whatever their digit counts |
| FileNames.OrderOfUnequalDigits | internal/cache/cache.go:95 | the shorter stamp's name comes first exactly when it does not exceed the longer one's leading digits |
| FileNames.NamesSortByTimeExactly | internal/cache/cache.go:95 | the exact condition under which two names of one kind sort as their stamps |
| FileNames.DigitCountsMatter | internal/cache/cache.go:95 | a concrete pair of names for which unequal digit counts break the order |
| Batching.ClampBatch | internal/config/config.go:168-173 | every configured batch size ends up in 1..100 |
| Batching.ClampMeans | internal/config/config.go:168-173 | a size in range means itself, none means 10 and a larger one 100 |
| Batching.CollectAndUpload | cmd/agent/main.go:377-421 | over any ticks: one sample per upload before the first success and exactly BatchSize after it, the queue always shorter than a batch and empty until then, and uploads plus queue are the samples in order |
| Delivery.PushItemCounts | cmd/agent/main.go:408-415 | a push through the locked store moves an item, and what it evicts, without copying or losing track of any |
| Delivery.NextConserves | cmd/agent/main.go:203-485 | every event of every goroutine keeps each item in exactly one place |
| Delivery.ConservationOverRuns | cmd/agent/main.go:203-485 | in every interleaving each sample and log line is in exactly one of hand, server, cache or lost |
| Delivery.DeliveredOnce | cmd/agent/main.go:203-485 | a delivered item is delivered once and is nowhere else |
| Delivery.AfterShutdown | cmd/agent/main.go:389-485 | when all goroutines have ended, every item is at the server, cached, lost or in the log ring, once |
| Delivery.LossesHaveCauses | cmd/agent/main.go:203-485 | lost grows only by eviction, a failed push, an undecodable entry, a missing cache, a failed final flush or a full ring, each tied to the event that did it; an evicted item is among the oldest that an entry which does not fit pushes out |
| Delivery.BatchesOverRuns | cmd/agent/main.go:377-421 | the batch sizes hold amid all other goroutines |
| DeliveryRuns.RecoveryDelivers | cmd/agent/main.go:213-268 | the recovery on its own, with everything working, ends only with the first 100 cached metrics and then the first 100 cached log lines at the server, in order, and the rest of both queues in the cache |
| DeliveryRuns.RecoveryEnds | cmd/agent/main.go:213-268 | and it does end |
| DeliveryRuns.StopsOnlyAfterLogs | cmd/agent/main.go:242-268 | in any run it stops, or holds log lines, only after a pop of the cached log lines |
| DeliveryRuns.RecoveredBatchIsSpilled | cmd/agent/main.go:231-262 | a recovered batch that fails to upload goes back into the store, item by item, and the recovery goes on |
| DeliveryRuns.ServerGetsSuccessfulUploads | cmd/agent/main.go:203-485 | the server receives exactly the batches of successful uploads, whole and in order |
| DeliveryRuns.NewItemsAreTakenOn | cmd/agent/main.go:396-402 | every new sample and log line is taken on |
| DeliveryRuns.TickTakesTheOldest | cmd/agent/main.go:468-471 | a tick of the logs goroutine takes the oldest lines, as many as its batch holds |
| DeliveryRuns.MetricsBatchIsSpilled | cmd/agent/main.go:408-415 | a metrics batch that fails to upload goes into the store, item by item, and the goroutine is idle again |
| DeliveryRuns.LogsBatchIsSpilled | cmd/agent/main.go:474-482 | so does a batch of log lines |
| DeliveryRuns.FailedUploadIsSpilled | cmd/agent/main.go:408-415 | with a store, a failed upload leaves the whole batch to be spilled; without one the goroutine is idle again |
| DeliveryRuns.ShutdownFlushes | cmd/agent/main.go:391-395 | at shutdown each goroutine makes one last upload of what it holds and ends |
| DeliveryRuns.StoreIsARun | cmd/agent/main.go:203-485 | within every run of the pipeline the store makes a run of its own, so the theorems about runs of the store apply |
| Logger.EveryNumberInOnePlace | pkg/logger/logger.go:89-145 | numbers drained, dropped, buffered and pending are disjoint and together 1..sequence; the buffer holds at most 1000 |
| Logger.OwnLinesLeaveInOrder | pkg/logger/logger.go:89-145 | each goroutine's own lines leave in increasing order |
| Logger.DrainTakesTheOldest | pkg/logger/logger.go:134-145 | a drain takes the oldest lines, all or as many as asked for |
| Logger.DropsOnlyWhenFull | pkg/logger/logger.go:93-103 | a line goes to the end, and the oldest is dropped only when 1000 are there |
| Logger.StrangersMayOvertake | pkg/logger/logger.go:89-103 | a run in which lines of two goroutines enter out of order |
| Logger.OrderedExactly | pkg/logger/logger.go:89-103 | lines stand in numeric order and below every pending number exactly after the runs in which each entry was the smallest pending one |
| Logger.AllLinesInOrderExactly | pkg/logger/logger.go:89-103 | so with nothing pending, all lines together are in numeric order exactly after those runs |
| Logger.NextKeepsInv | pkg/logger/logger.go:89-145 | every step keeps numbers distinct and own lines ordered, with drawing outside the lock |
| LogSlices.LogBuffer.AppendEntry | pkg/logger/logger.go:96-103 | append in place or into a grown array adds one entry and touches no batch handed out |
| LogSlices.LogBuffer.MakeSpace | pkg/logger/logger.go:91-95 | reslicing a full buffer drops its head only |
| LogSlices.LogBuffer.Buffer | pkg/logger/logger.go:89-103 | the buffer's next contents, and every batch handed out unchanged |
| LogSlices.LogBuffer.DrainEntries | pkg/logger/logger.go:134-145 | the batch is the first entries, shares the buffer's array, and it and all earlier ones stay frozen |
| Heartbeat.HeartbeatLoop.SendHeartbeat | cmd/agent/main.go:290-353 | one beat's whole effect on the five variables, on the normal and the fallback path, and when it carries extra data |
| Heartbeat.OneDueInFive | cmd/agent/main.go:291-300 | any five consecutive beats of any run include exactly one that is due by count, and it sends whenever something usable was collected |
| Heartbeat.DueCounts | cmd/agent/main.go:291-293 | the first beat is due by count, and then every fifth |
| Heartbeat.Remembers | cmd/agent/main.go:310-353 | a beat that sends remembers the collected fingerprint or else the reported one; any other beat changes only its count |
| Heartbeat.NoChangeNoTrigger | cmd/agent/main.go:296-297 | a beat that reports the remembered fingerprint or none records no agent trigger and sends only for another reason |
| Heartbeat.NoTriggerTooSoon | cmd/agent/main.go:297 | nor does a change within 30 s of the last record |
| Heartbeat.ChangeTriggers | cmd/agent/main.go:296-353 | a new fingerprint after the cooldown sends whatever could be collected and is recorded |
| Heartbeat.QuietWhileUnchanged | cmd/agent/main.go:290-353 | over any run of beats in which the agents stay as remembered nothing is recorded for them |
| Heartbeat.RecordsNeedAChange | cmd/agent/main.go:290-353 | between two different records some beat reported a fingerprint other than the one remembered then |
| Heartbeat.NoMessageNoTrigger | cmd/agent/main.go:298 | without a recent message, or within 120 s, no message trigger is recorded |
| Heartbeat.RecentMessageTriggers | cmd/agent/main.go:298-353 | a recent message after the cooldown sends whatever could be collected and is recorded |
| Heartbeat.UsableMeans | cmd/agent/main.go:302-353 | what can be collected is the full information, or the fallback when that fails |
| Heartbeat.AgentTriggersSpaced | cmd/agent/main.go:296-353 | recorded agent triggers are at least 30 s apart over any run |
| Heartbeat.MessageTriggersSpaced | cmd/agent/main.go:298-353 | recorded message triggers are at least 120 s apart over any run |
| Heartbeat.SentHaveTriggers | cmd/agent/main.go:290-353 | every beat with extra data is paid for by an interval, an agent trigger or a message trigger |
| Heartbeat.RateBound | cmd/agent/main.go:281-364 | n beats over T s carry extra data at most ceil(n/5) + (T/30 + 1) + (T/120 + 1) times |
| Executor.FindReplyString | internal/command/executor.go:465-523 | ends on every value, and answers with a reply that some map order finds, or empty when there is none |
| Executor.FoundReplies | internal/command/executor.go:465-523 | whatever the map order, a reply found is trimmed and not empty and was there to find |
| Executor.AnswerIsEmptyOrProper | internal/command/executor.go:465-523 | emptiness of the answer is the same for every map order |
| Executor.FoundIsPlain | internal/command/executor.go:470-481 | JSON within strings is unpacked: a reply found holds no further reply inside |
| Executor.FirstElementAnswers | internal/command/executor.go:515-520 | the first element of an array that holds a reply answers for it |
| Executor.FirstListedKeyAnswers | internal/command/executor.go:482-504 | the first listed key that holds a reply answers for the object |
| Executor.WhereRepliesAre | internal/command/executor.go:482-520 | a string answers exactly under a listed key, a container under any |
| Executor.DepthLimit | internal/command/executor.go:465-468 | depth 8 can hold a reply, depth 9 none |
| Executor.ExtractAgentReply | internal/command/executor.go:450-463 | empty if and only if the output is blank; otherwise a found reply or the whole trimmed output |
| Executor.ExecMessage | internal/command/executor.go:402-448 | status 3 if and only if the message is blank or the CLI failed without output; otherwise the reply in the output |
| ConfigFile.ExecConfig | internal/command/executor.go:163-238 | the step-by-step command, backup included, leaves the files and the success that the run theorems below speak about; a read returns the file's text |
| ConfigFile.FileHoldsTheLastContent | internal/command/executor.go:199-222 | after any run of config commands the file decodes to the last content that reached it, and otherwise is untouched |
| ConfigFile.StaysJson | internal/command/executor.go:163-238 | a file that is JSON stays JSON through every run, refused and failing commands included |
| ConfigFile.WriteIsReadBack | internal/command/executor.go:178-222 | after a successful write a read succeeds and returns a text of the same JSON value |
| ConfigFile.GoodWriteSucceeds | internal/command/executor.go:199-222 | where the file system lets it, a write succeeds exactly on text that is JSON |
| ConfigFile.ReadSucceedsExactly | internal/command/executor.go:180-236 | a read or a check succeeds exactly on a readable JSON file and changes nothing |
| ConfigFile.ReplacedTextIsKept | internal/command/executor.go:209-213 | the text that a write replaces is in the backup, if it could be read and backed up |
| Executor.Execute | internal/command/executor.go:45-88 | status always 2 or 3, and 3 exactly under the condition of each command type; only config touches the file; CLI commands answer with the CLI's trimmed output and messages with the reply in it |
| Executor.NothingFails | internal/command/executor.go:45-88 | when nothing goes wrong every known command ends in status 2 |
| Executor.EverythingFails | internal/command/executor.go:45-88 | when everything goes wrong, or the command is unknown, it ends in status 3 |
| Executor.OutputRescues | internal/command/executor.go:241-448 | output of the CLI rescues every command that runs it, even if it failed |
| Executor.OnlyItsOwnProgramMatters | internal/command/executor.go:45-88 | the status of a command depends on nothing but its own program and parameters |
| Command.Handler.HandleCommand | internal/command/consumer.go:46-117 | the handler, deferred recover included, publishes exactly the delivery's trace |
| Command.Handler.SendProgress | internal/command/consumer.go:119-140 | progress only with a reporter and a non-zero numeric id |
| Command.ReportsOfTrace | internal/command/consumer.go:46-117 | the reports of a trace are [3] or [1, s] with s in {2, 3}, panics included |
| Command.ReportsByOpening | internal/command/consumer.go:63-117 | a command that cannot be opened gives [3]; any other gives 1 and then 3 exactly if Execute panicked or failed |
| Command.AckComesFirst | internal/command/consumer.go:54-58 | an acknowledgement is sent once, first, and only with an acknowledger |
| Command.RunningFollowsTheStart | internal/command/consumer.go:102-103 | the running progress directly follows the start report, exactly when progress is reported |
| Command.FinalProgress | internal/command/consumer.go:109-116 | a final progress is published exactly when Execute returns and progress is reported; "failed" exactly with s = 3 |
| Command.DispatchedInOrder | internal/transport/mqtt_broker.go:125-146 | deliveries received are those dispatched followed by at most 32 in the channel, in order |
| Command.NothingIsStuck | internal/transport/mqtt_broker.go:125-146 | a delivery is accepted unless 32 are waiting, the oldest is dispatched, and each handler gets on |
| Command.ReportsOfDelivery | internal/command/consumer.go:46-117 | among any number of concurrent handlers each delivery's reports are a prefix of its own, and all of it once its handler has ended |
| Table.ParseTable | internal/collector/openclaw.go:655-705 | the three scans (title, header, rows) compute the section reader's rows |
| Table.FindSectionStart | internal/collector/openclaw.go:1091-1108 | the first line that matches the title |
| Table.SectionRead | internal/collector/openclaw.go:655-705 | for any classification of lines: only the lines between header and the next section are read, each at most once and in order |
| Table.SplitOfRender | internal/collector/openclaw.go:1143-1153 | splitting a row rendered with either bar gives its cells between two empty ones |
| Table.RenderedRowIsARow | internal/collector/openclaw.go:1110-1141 | a row rendered with either bar is neither a rule nor a section heading |
| Table.DashedRowIsARule | internal/collector/openclaw.go:1110-1125 | rows of dashes between ASCII bars or crosses are rules |
| Table.TitleForms | internal/collector/openclaw.go:1091-1108 | a title is found alone or before a space or a colon, in any case, and never as the beginning of another word |
| Table.ListedHeadingsStartSections | internal/collector/openclaw.go:1127-1141 | every listed heading starts a section, whatever follows it on its line |
| Table.HeaderInFirstThree | internal/collector/openclaw.go:663-673 | the header column is the first of the first three that holds the first header |
| Table.RowHoldsCells | internal/collector/openclaw.go:690-702 | a row map holds the cell under each header |
| Table.RoundTrip | internal/collector/openclaw.go:655-705 | reading a section rendered with Unicode or ASCII bars, line by line, returns exactly its rows, in order |
| Table.RowsAreNamed | internal/collector/openclaw.go:690-703 | whatever the input, every row read has something in its first cell |
| Table.FilledRowsAreAllMeant | internal/collector/openclaw.go:682-704 | filled rows all come back, each with its trimmed cells under its headers |
| Table.RoundTripExactly | internal/collector/openclaw.go:655-705 | under the same premises, with any lines above the header row: the rows come back if and only if there are none or no such line starts a section |
| Table.SectionStartLosesTheTable | internal/collector/openclaw.go:661-680 | any line that starts a section, from the heading to just before the header row, loses the whole table |
| Table.HeadingEndsItsOwnSection | internal/collector/openclaw.go:661-680 | the heading itself does so when it is on the section list |
| Table.ChannelsTableIsLost | internal/collector/openclaw.go:504 | the agent's own "Channels" table is lost when spelled that way |
| Sessions.AnnotateAgents | internal/collector/openclaw.go:543-578 | an agent without sessions is unchanged; otherwise each empty session field gets the trimmed model or tokens of its chosen session, and nothing else changes |
| Sessions.BestIsChosen | internal/collector/openclaw.go:555-587 | the fold picks the first main session, else the first with a key, else the last; none exactly when the agent has none |
| Sessions.ChosenIsUnique | internal/collector/openclaw.go:580-587 | that description fits one session only |
| Sessions.MainKeys | internal/collector/openclaw.go:580-587 | a main session is one whose key ends in ":main" |
| Fingerprint.SortSlice | internal/collector/openclaw.go:329-334 | a sorted permutation |
| Fingerprint.SnapshotCounts | internal/collector/openclaw.go:315-325 | an item is in the snapshot exactly as often as there are agents with its trimmed, non-empty id and its trimmed name |
| Fingerprint.AgentsFingerprint | internal/collector/openclaw.go:307-341 | the digest of some sorted list that holds each id and name as often as the agents have them, empty if no agent has an id |
| Fingerprint.SortedIsUnique | internal/collector/openclaw.go:329-334 | two sorted arrangements of the same items are equal, although the sort is not stable |
| Fingerprint.CanonicalForm | internal/collector/openclaw.go:307-341 | sorted snapshots are equal if and only if the agents have the same ids with the same names, as often each |
| Fingerprint.FingerprintsAgree | internal/collector/openclaw.go:307-341 | fingerprints are equal if and only if the agents are the same in that sense, for an injective digest that is never empty |
| Fingerprint.SameFingerprint | internal/collector/openclaw.go:307-341 | the same agents have the same fingerprint, for every digest |
| Fingerprint.InvariantUnderReordering | internal/collector/openclaw.go:307-341 | reordering the agents leaves the fingerprint alone, for every digest |
| Retry.Post | pkg/client/client.go:76-110 | calls are min(first success, attempts), the last error is returned, the sleeps are the intervals, and together they are at most (attempts - 1) * max(init, max) |
| Retry.SettingsOrDefaults | pkg/client/client.go:79-90 | settings that are not positive mean 3 attempts, 1 s and 30 s; positive ones mean themselves |
| Retry.LawHolds | pkg/client/client.go:79-107 | sleep k is min(max, init * 2^k), or init if init >= max, for all k, if and only if init >= max or max is not past the peak |
| Retry.OverflowsPastThePeak | pkg/client/client.go:101-106 | past the peak the doubled interval is negative |
| Retry.OverflowExample | pkg/client/client.go:101-106 | a concrete first interval and ceiling for which the next interval is negative |
| Retry.LawHoldsUpToHalf | pkg/client/client.go:79-107 | the law holds for every ceiling up to 2^62 ns |
| Retry.TotalSleep | pkg/client/client.go:91-107 | that bound for every sequence of sleeps Post can return, overflow or not |
| Pairing.PollCode | internal/pairing/pairing.go:127-170 | the inner loop's events and verdict |
| Pairing.RunPairing | internal/pairing/pairing.go:103-172 | the nested loops' events and outcome |
| Pairing.RunsAreLawful | internal/pairing/pairing.go:103-172 | every run polls only before its code's deadline, renews only after an ended code, and ends on the event that explains its outcome |
| Pairing.KeyOnlyFromAPairedPoll | internal/pairing/pairing.go:138-158 | a key is returned if and only if the last event is a "paired" poll whose envelope opened to that non-empty key |
| Pairing.NewCodeOnlyWhenTheOldEnded | internal/pairing/pairing.go:103-172 | a new code is requested only after an "expired" poll or a clock reading at or past issue time plus lifetime |
| Pairing.WaitingUsesTheScript | internal/pairing/pairing.go:103-172 | the loop goes on: a run still waiting has made every poll of its last round or used every round |
| Pairing.LifetimeIsSeconds | internal/pairing/pairing.go:127 | a lifetime is expires_in seconds exactly when its nanoseconds fit into 64 bits |
| Pairing.PollsPerCode | internal/pairing/pairing.go:127-129 | polls of one code are at most its lifetime over 3 s, rounded up |
| Pairing.PollsWithinBudget | internal/pairing/pairing.go:127-129 | that is ceil(expires_in / 3), and none for a negative expires_in, unless its nanoseconds wrap to a positive lifetime |
| Pairing.ExpiredCodeIsPolled | internal/pairing/pairing.go:127-129 | a run that polls a code whose negative expires_in wraps to a positive lifetime |
| Pairing.BudgetKeptExactly | internal/pairing/pairing.go:103-172 | every run keeps the budget if and only if expires_in is not negative or its wrapped nanoseconds are not positive |
| Pairing.WrapExample | internal/pairing/pairing.go:127 | -9223372037 breaks the budget and no larger value does |
| Strings.TrimUnique | internal/collector/openclaw.go:1143-1153 | trimming is the only way to cut blank ends off |
| Strings.TrimEmptyIffBlank | internal/command/executor.go:450-463 | a trimmed string is empty if and only if the string is blank |

## Left out

- HTTP, MQTT, Redis, the macOS Keychain, launchctl and the openclaw CLI: outcomes are arbitrary; an upload is one atomic success or failure.
- RSA, AES-GCM, PEM, SHA-1 and JSON codecs: parameters or datatypes; round trips are assumed where a property needs them.
- Identity.Agreement: assumes that an existing file can be read, that a file write lands whole or not at all, and that flock excludes; a failing read of an existing file makes the source generate anew.
- CacheSpec.PushEvictsMinimally: assumes that removals and stats succeed and that nobody else writes the directory; foreign or unreadable files are not modelled, nor is a crash between the data and the index write.
- CacheRuns.FilesAreASuffix: assumes increasing time stamps whose names sort as they do, and modification times that never go back.
- CacheBytes.BalanceOverRuns: assumes that index writes of pushes succeed; what a failed one does is stated by LostIndexBreaksBalance.
- CacheBytes.EvictedBytesAreNeverRefunded: assumes that index writes of pushes succeed; a push that fails to save the index lets a restart forget bytes.
- Cache.Cache.New: does not model a failing mkdir or the 64-bit overflow of maxSizeMB * 1048576; a negative number in a hand-edited index is taken as it is.
- Cache.Cache.PopKind: returns the entries; the source returns their bodies. A directory that cannot be listed is not modelled.
- Delivery.ConservationOverRuns: assumes that pushes name new files and that goroutines do not panic; JSON encoding never fails.
- Heartbeat.RateBound: assumes a monotone clock; the heartbeat request itself and the revocation of credentials are not modelled.
- Executor.Execute: does not state error texts or the texts that the launchctl and probe commands compose; argument lists and time limits are not modelled.
- ConfigFile.ExecConfig: a write lands whole or not at all; backup names, file modes and the text of errors are not modelled, and the JSON codec is a parameter that is assumed to round-trip.
- Executor.FindReplyString: takes the JSON decoder as a parameter; numbers, booleans and null are one constructor.
- Command.Handler.HandleCommand: assumes that the acknowledger and the reporters do not panic; report texts, the decryption itself and the process exiting under running handlers are not modelled.
- Command.DispatchedInOrder: undecodable MQTT messages are dropped before the model begins; the Redis broker is not modelled.
- Table.RoundTrip: rows between ASCII bars must show something that is no part of an ASCII rule; strings are sequences of characters, without Unicode case folding beyond ASCII and byte offsets.
- Sessions.AnnotateAgents: takes the parsed sessions as input; the mapping of table columns to session fields is not modelled.
- Fingerprint.AgentsFingerprint: takes the hash of the JSON text as a parameter; FingerprintsAgree assumes it injective.
- Pairing.PollsPerCode: assumes a monotone clock and sleeps of at least 3 s; the run is told against a finite script and is still waiting where the script ends.
- Retry.Post: outcomes are a function of the attempt; the requests and the waiting itself are not modelled.
- parseAgentsTable and parseKeyValueTable: their headings and closing bars do not round-trip, so there is no inverse to state.
- collector.Collect, device collection, skill scanning, status collectors, display text, shell scripts and configuration defaults other than the batch clamp: no state worth an invariant.
