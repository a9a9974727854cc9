# A verified model of the user pipeline of go-api-demo

Users are created through an API and inserted in MySQL. Change data capture turns
every insert into a record of a partitioned Kafka topic. Two groups of consumers read
the topic: one fills Redis, which serves reads, the other Elasticsearch, which serves
searches. This project models that pipeline in Dafny and proves what every run of it
keeps, what it does not promise, and that the loops it rests on do what they should.

`dafny verify dfyconfig.toml` checks everything.

## How the model is laid out

| file | what it is |
|---|---|
| `Users.dfy`, `Text.dfy`, `Upserts.dfy` | the user entity, two string functions, the abstract last-wins store |
| `Format.dfy`, `Processor.dfy` | timestamp conversion over 64-bit integers; classification of a change event and the processor that applies it to a view |
| `Projection.dfy` | the whole read side as a labelled step system, with its inductive invariant |
| `Guarantees.dfy` | what follows for every run: safety, commit accounting, convergence, and a run that shows commits are not at-least-once |
| `Certainty.dfy` | what the requests, answers and logged errors of a group tell about its view: exactly when a row may be missing, may be there, or the whole table is sure to be |
| `Schedules.dfy` | which deliveries and which compactions of the log give the same view |
| `Consumers.dfy`, `Refinement.dfy` | the consumer loop as imperative code, and the proof that any number of loops, interleaved action by action with one another and with everything else, run as the step system does |
| `FanOut.dfy` | the goroutines, channel, wait group and error joining of the Elasticsearch create |
| `Memory.dfy`, `Redis.dfy`, `MySql.dfy`, `Stores.dfy` | the three stores, each against the abstract store, and against each other |
| `Metrics.dfy`, `Lifecycle.dfy`, `Sanitise.dfy` | the message counter, the start and shutdown of the application, the search term |

In `Projection.dfy` the table, the logs, any number of groups and any number of
consumers take steps in any order: insert, append, compact, fetch, skip a compacted
offset, send a write, have a sent write land (at any later time, even twice, even after
its consumer crashed), acknowledge, fail, commit (merged by the broker or taken as it
comes), lose a commit, and rebalance or crash. No rule keeps a partition with one
consumer, so a consumer that lost its partition may finish and commit what it holds.

## Assumptions

- The API only inserts rows, ids are not empty, and a row never changes once inserted.
  Records about changed or deleted rows may still appear in a log; they name the row
  before the change.
- The value of a row is the one its insert event carries, because a DATETIME column
  drops fractions of a second. In `MySql.dfy` what the column keeps is a parameter.
- JSON is a pair of functions of which only decode(encode(x)) == x is assumed; encoding
  may fail. Avro decoding and mapstructure are modelled by their outcome: a payload too
  short to decode, one that does not decode, one that does not map, or a change event.
- A process that ends takes all its consumers with it; in the step system that is one
  step for each, in any order and with anything in between.
- What remote systems answer is a parameter of the operation that calls them: a write
  or commit may land or not, and independently be acknowledged or not.
- Where the fetch script of a consumer loop ends, the next fetch does not return.
- A broker may merge a commit with a higher offset it has, or take it as it comes.
- The Elasticsearch server does not answer a request it will store before it has stored
  it; a request that failed in transport may be stored at any later time.
- Redis SCAN, once it has ended, returned every matching key that was present
  throughout, possibly more than once. The program removes no keys.

## Where the code and what one might expect of it differ

- A message whose processing fails is logged and passed over by the next commit in its
  partition, so a committed offset does not mean the event was applied
  (`Guarantees.CommittedDoesNotMeanApplied`) or ever will be (`Guarantees.LostForGood`).
  The view is sure to be the table exactly
  if every row has a create that returned nil, from a store that keeps what it
  acknowledges (`Certainty.ConvergenceExactly`).
- If the broker takes commits as they come, a consumer that starts again can lower an
  offset for good (`Consumers.StaleCommitWins`); `Consumers.CommittedIsMaxExactly` says
  exactly when the highest offset is what stays.
- The comment on `Process` says that equal before and after values only occur for
  tombstones. They also occur for any change between two timestamps that are not
  positive (`Processor.ClassifyExactly`).
- A value that is not nil but has under five bytes makes `Decode` panic
  (internal/schema/schema.go:49). It ends every process that fetches it, is never
  committed, and holds its partition up until it is compacted away
  (`Consumers.Runner.Run`, `Guarantees.ShortIsNeverPassed`).
- The in-memory `Read` does not take the lock that `Create` takes. A read that overlaps
  a create that writes anything is a data race, which Go may end the process for
  (`Memory.RaceExactly`); without one, a read is a snapshot
  (`Memory.RaceFreeReadIsSnapshot`).
- The Elasticsearch create does not look at `isError`, so it returns nil for documents
  the server refused (`FanOut.NilMeansIndexedExactly`).
- A marshal error in the Elasticsearch create leaves the goroutines already started
  blocked for ever, unless it is the first user of the batch that fails
  (`FanOut.NoLeakExactly`). The consumer's batches have one user.
- The Redis read does not look at the error of MGET and then reports no users and no
  error, and it lists a user twice if SCAN repeats its key (`Redis.UserCache.Read`,
  `Redis.ReadDuplicatesExactly`).
- An empty MySQL batch is sent as a statement without rows, which the server rejects
  (`MySql.InsertRoundTrip`).
- With the in-memory storage, a nil closer reaches `App.Close`, which crashes on it and
  leaves the Kafka readers open (`Lifecycle.MemoryStorageCrashesClose`).

## Model

| member | source | states |
|---|---|---|
| `Format.MsecToTime` | internal/format/format.go:10-25 | no intermediate result overflows an int64; the result is the zero time exactly for timestamps that are not positive, and otherwise a normalised time that denotes the same instant |
| `Format.MsecRoundTrip` | internal/format/format.go:18-22 | converting back gives the timestamp, or 0 if it was not positive |
| `Format.MsecToTimeStrictlyIncreasing` | internal/format/format.go:18-22 | positive timestamps are ordered exactly as the times they become |
| `Format.MsecToTimeCollapse` | internal/format/format.go:16-24 | two timestamps give the same time exactly when they are equal or both not positive |
| `Processor.ClassifyExactly` | internal/user/consume/processor.go:41-50 | skip, create and refuse, each characterised by the raw rows of the event alone, both directions |
| `Processor.InsertExample` | internal/user/consume/processor.go:43-50 | the insert event of user 7, Ann Lee, at 1500 ms, and the user it creates, literally |
| `Processor.ClassifyByIds` | internal/user/consume/processor.go:41-50 | an insert event with an id is a create of its row; an event about an existing row never creates |
| `Processor.UserKeepsRowExactly` | internal/user/consume/processor.go:79-94 | a user keeps every field of its row exactly when the timestamp is not negative |
| `Processor.EventProcessor.Process` | internal/user/consume/processor.go:30-51 | the four outcomes: an undecodable event and a refused one give an error and leave the view alone, a skipped one gives nil and leaves it alone, a create attempts exactly one write of the after user and returns its error |
| `Projection.DutyExactly` | internal/consume/consumer.go:112-134 | for every kind of message, from its raw content: nothing to do, a create and of which user, an error, or the end of the process |
| `Projection.CreateComesFromSource` | internal/user/consume/processor.go:43-50 | a record that makes a consumer create a user is the insert event of a row of the table, with its value |
| `Projection.WorkKeepsOffsets` | internal/consume/consumer.go:112-142 | no step of a consumer breaks the accounting of committed offsets, positions and messages in flight |
| `Projection.WriteKeepsContents` | internal/storage/redis/user.go:55-77 | a write that reaches a store, however late, leaves only users of the table in the view |
| `Projection.StepKeepsInv` | internal/consume/consumer.go:88-142 | every step of the system, of the table, the logs or any consumer of any group, keeps the invariant |
| `Projection.RunKeepsInv` | internal/consume/consumer.go:88-142 | so does every run |
| `Guarantees.ProjectionSafety` | internal/user/consume/processor.go:30-51 | in every reachable state each view is a submap of the table: every id was inserted, with exactly that row's value |
| `Guarantees.CommitAccounting` | internal/consume/consumer.go:112-142 | every offset below a committed one was compacted, had nothing to do, was acknowledged by the store, or failed and was logged |
| `Guarantees.ShortIsNeverPassed` | internal/schema/schema.go:45-55 | no group ever commits past a value too short to decode that has not been compacted, so none catches up with a log that has one |
| `Guarantees.FailurePassedByLaterCommit` | internal/consume/consumer.go:101-104 | an offset that never succeeded is committed past only by the commit of a later message of its partition |
| `Guarantees.CommitGoesBackExactly` | internal/consume/consumer.go:136-139 | a committed offset decreases exactly when the broker takes a stale commit without merging it |
| `Guarantees.CommittedNeverDecreases` | internal/consume/consumer.go:136-139 | with merging commits it never decreases along a run |
| `Guarantees.Convergence` | internal/consume/consumer.go:54-81 | caught up, captured and without a failed create, the view is the table, for any number of consumers and any schedule; a lossy store must have kept what it acknowledged |
| `Guarantees.TwoGroupsAgree` | internal/consume/consumer.go:54-81 | two groups in that situation show the same users |
| `Guarantees.OnlyInsertsCaptured` | internal/config/config.go:226-240 | in a compacted topic of insert events, one record per row is enough for the convergence results |
| `Guarantees.CommittedDoesNotMeanApplied` | internal/consume/consumer.go:88-106 | a concrete run in which the whole log is committed and a row is missing and left behind |
| `Guarantees.LostForGood` | internal/consume/consumer.go:88-106 | a row left behind, no write of it asked for and every create of it below all offsets, is never shown by any continuation with merging commits and no new create of it |
| `Certainty.DroppedIsARun` | internal/user/consume/processor.go:43-48 | unless a create of the row returned nil, leaving out every landing of its writes gives another run, the same but for the view |
| `Certainty.MissingExactly` | internal/consume/consumer.go:101-104 | some run with the same requests, answers, logged errors, commits and consumers lacks a row exactly if none of its creates returned nil, or the store acknowledges what it does not keep |
| `Certainty.ShownExactly` | internal/user/consume/processor.go:43-48 | some such run shows it exactly if one of its writes was requested |
| `Certainty.ConvergenceExactly` | internal/consume/consumer.go:101-104 | every such run shows the whole table exactly if every row has a create that returned nil and the store keeps what it acknowledges |
| `Certainty.UnsureWasLogged` | internal/consume/consumer.go:101-104 | when a group has caught up, a captured row without a successful create has a create whose failure was logged |
| `Schedules.ScheduleIndependence` | internal/user/consume/processor.go:43-48 | deliveries of the same events, in any order and with any repetitions, build the same view |
| `Schedules.RedeliveryIsHarmless` | internal/user/consume/processor.go:46-47 | processing a create again leaves the view as it was |
| `Schedules.ScheduleIndependenceExactly` | internal/user/consume/processor.go:43-50 | the order is irrelevant exactly if no two events give one id different values |
| `Schedules.ViewIsAnyFold` | internal/storage/redis/user.go:60-71 | in every reachable state a view is the fold of any delivery of the creates that reached its store |
| `Schedules.CompactionKeepsView` | internal/config/config.go:226-240 | any compaction that keeps the last record of every key leaves the replayed view unchanged, if every created key ends in a create |
| `Schedules.FullCompactionExactly` | internal/config/config.go:226-240 | compaction to the last records leaves it unchanged exactly under that condition |
| `Consumers.Reader.CommitMessages` | internal/consume/consumer.go:15-19 | a commit that lands leaves the partition at one past the message, or at its higher offset if the broker merges; one that is lost changes nothing |
| `Consumers.Runner.Consume` | internal/consume/consumer.go:112-142 | a message is committed only after it had nothing to do or its create returned nil; the requests, their order, the effects and the error are those of the specification; a value under five bytes ends the process without a request |
| `Consumers.HandleTombstone` | internal/consume/consumer.go:117-123 | a nil value is committed, nothing else changes, and the error is the commit's |
| `Consumers.HandleUnreadable` | internal/consume/consumer.go:125-134 | a value that does not decode or map changes nothing, asks for nothing and gives its own error |
| `Consumers.HandleChange` | internal/consume/consumer.go:131-139 | a change event, from its raw rows: what is written, which requests are made in which order, and which error is returned |
| `Consumers.CommitAskedExactly` | internal/consume/consumer.go:117-139 | a message is committed exactly if it is a tombstone, an event without effect, or an insert whose create returned nil; and where the offset then stands |
| `Consumers.Runner.Run` | internal/consume/consumer.go:88-106 | returns nil, exactly if the context's error is fetched before any value too short to decode; until then, until such a value ends the process, or until a fetch blocks, hands over every fetched message once, in order; errors only reach the log |
| `Consumers.DeliveriesExactly` | internal/consume/consumer.go:88-103 | what is handed over is every fetched message once, in fetch order |
| `Consumers.LinesExactly` | internal/consume/consumer.go:95-104 | the log has one error line for every failed fetch and every message whose handling returned an error, with that error, in fetch order, and no other |
| `Consumers.CommitsComeLast` | internal/consume/consumer.go:112-142 | every commit the loop ever asks for is of a message that had nothing to do, or comes right after its create, which returned nil |
| `Consumers.CommittedIsMaxExactly` | internal/consume/consumer.go:101-104 | the loop leaves a partition committed beyond all it had committed there exactly if every commit the broker let lower the offset was made good by it or a later one |
| `Consumers.MergingMakesNoDifference` | internal/consume/consumer.go:88-106 | over ascending offsets the same offset stays committed whether the broker merges or not |
| `Consumers.StaleCommitWins` | internal/consume/consumer.go:15-19 | commits at offsets 5 and then 3, taken as they come, leave 4 committed |
| `Refinement.ActionsAreHandle` | internal/consume/consumer.go:112-142 | the actions of the code on one message, one after the other, have the effect of the loop body and make its requests in its order |
| `Refinement.InterleavingIsARun` | internal/consume/consumer.go:88-142 | any number of loops in any groups, interleaved action by action with one another and with inserts, appends, compaction, late writes, rebalances and crashes, only take steps the system allows |
| `Refinement.InterleavingIsSafe` | internal/consume/consumer.go:88-142 | at every moment of every such interleaving each view holds only users of the table, and nothing beyond the log is committed |
| `Refinement.InterleavingShows` | internal/consume/consumer.go:112-142 | every action of a loop changes the stores as its code says, from what others have made of them |
| `Refinement.HandleIsARun` | internal/consume/consumer.go:112-142 | at any moment, a message handled without interruption has exactly the effect of the loop body |
| `Refinement.HandlingIsBooked` | internal/consume/consumer.go:101-139 | a handled message is booked as failed exactly if its processing returned an error, which is then what is logged, and as acknowledged exactly if it created a user; its consumer is idle again |
| `Refinement.HandlingExample` | internal/consume/consumer.go:88-142 | a loop that is handed an insert event shows the user, has committed offset 1, and asked for the create and then the commit |
| `Refinement.LoopIsARun` | internal/consume/consumer.go:88-106 | a loop with anything the system allows between its messages is a run of the system, and each turn works on the stores it finds |
| `Refinement.UndisturbedLoopIsRun` | internal/consume/consumer.go:88-106 | with nothing in between either, it does what the contract of Run says |
| `Refinement.ServedIsAscending` | internal/consume/consumer.go:88-106 | a loop that starts at its committed offsets and is not rebalanced is handed ascending offsets, whatever others do between its messages |
| `Refinement.LoopIsSafe` | internal/consume/consumer.go:88-106 | from any moment of any interleaving on, and whatever others do between its messages, a loop leaves only users of the table in the view and commits nothing beyond the log |
| `FanOut.AggregateMeaning` | internal/storage/elastic/user.go:122-139 | the joined error is nil exactly if no request failed; else its text is every transport error once, in reverse order of arrival, and it wraps the last to arrive |
| `FanOut.ErrorsBackwardsExactly` | internal/storage/elastic/user.go:124-137 | those errors are the ones of the failed replies, each once, from the last to the first |
| `FanOut.AggregateIs` | internal/storage/elastic/user.go:122-139 | errors.Is finds the last failure to arrive and the aggregate; earlier failures are text |
| `FanOut.Drain` | internal/storage/elastic/user.go:122-139 | the drain loop computes that error |
| `FanOut.DocumentRoundTrip` | internal/storage/elastic/user.go:76-82 | a search hit gives back the indexed user, and distinct users are distinct documents |
| `FanOut.DocumentExactly` | internal/storage/elastic/user.go:76-82 | the indexed document, field by field; the full name is the first name, one space and the last name |
| `FanOut.DocumentExample` | internal/storage/elastic/user.go:76-82 | the document of Ann Lee, literally |
| `FanOut.StepKeepsControl` | internal/storage/elastic/user.go:72-120 | every step of main, of a goroutine or of the closer keeps the wait group equal to the goroutines alive, and the channel open until all are gone |
| `FanOut.StepKeepsArrivals` | internal/storage/elastic/user.go:124-137 | every step keeps the received responses distinct, one per goroutine that sent, and the error their aggregate |
| `FanOut.FanOutSafety` | internal/storage/elastic/user.go:72-137 | in every schedule nothing sends on the closed channel, the counter is never negative, and when the channel is closed each user's response was received exactly once |
| `FanOut.Progress` | internal/storage/elastic/user.go:117-137 | until Create has returned some step is possible |
| `FanOut.FanOutTerminates` | internal/storage/elastic/user.go:72-139 | no schedule for n users has more than 6n+4 steps, late landings included |
| `FanOut.FanOutResult` | internal/storage/elastic/user.go:84-139 | a marshal error is the result; otherwise the result is nil exactly if no request had a transport error, and else the aggregate in arrival order |
| `FanOut.FanOutEnd` | internal/storage/elastic/user.go:84-87 | where every run ends: all goroutines gone, or, after a marshal error, those already started blocked on their send |
| `FanOut.NoLeakExactly` | internal/storage/elastic/user.go:84-87 | no goroutine stays behind exactly if no user, or the first one, fails to marshal |
| `FanOut.NilIsSettled` | internal/storage/elastic/user.go:107-114 | when Create returns nil, every document the server keeps is in the index; after an error some may still land |
| `FanOut.NilMeansIndexedExactly` | internal/storage/elastic/user.go:107-139 | after a nil result every user is in the index exactly if no answer of the server was an error |
| `FanOut.IndexIsScheduleFree` | internal/storage/elastic/user.go:91-114 | for batches without conflicting ids the index ends the same in every schedule, once late requests have landed |
| `FanOut.IndexIsScheduleFreeExactly` | internal/storage/elastic/user.go:91-114 | and exactly for those: with a conflict, two schedules end in different indexes |
| `FanOut.OneUserIsOneWrite` | internal/storage/elastic/user.go:68-140 | for one user the protocol amounts to one write: the error is the request's, the index has the document exactly if the request has landed, and without an error it has if it ever will |
| `Upserts.LastWins` | internal/storage/memory/user.go:28-30 | after a batch an id has the last user written under it |
| `Upserts.Untouched` | internal/storage/memory/user.go:28-30 | an id no user of the batch has keeps what it had |
| `Upserts.UpsertConcat` | internal/storage/memory/user.go:21-33 | one batch or two in a row make no difference |
| `Memory.UserStorage.Create` | internal/storage/memory/user.go:21-33 | the map is updated as the abstract store |
| `Memory.UserStorage.Read` | internal/storage/memory/user.go:35-43 | on its own, and whatever the iteration order, every user once and nothing else |
| `Memory.CreatesExclude` | internal/storage/memory/user.go:21-33 | in every schedule of any number of calls at most one writes, and each Create makes of the map it found what it would on its own |
| `Memory.CallsGoOn` | internal/storage/memory/user.go:21-43 | no schedule gets stuck before every call has returned |
| `Memory.RaceExactly` | internal/storage/memory/user.go:35-43 | some schedule of a set of calls writes the map while it is read exactly if they have a read and a create that is not empty |
| `Memory.RaceFreeReadIsSnapshot` | internal/storage/memory/user.go:35-43 | in a schedule without that, every read lists the map as it was from the first to the last step of its iteration |
| `Redis.UserCache.Create` | internal/storage/redis/user.go:55-77 | an empty batch and one that cannot be marshalled change nothing; otherwise one MSET writes all users in order, and its error is returned |
| `Redis.UserCache.Read` | internal/storage/redis/user.go:79-123 | scan error, failed MGET, first value that is missing or does not decode, and success, each with the exact slice returned |
| `Redis.Unmarshal` | internal/storage/redis/user.go:106-122 | the decoded users up to the first bad value, zero users after it |
| `Redis.KeysAndIds` | internal/storage/redis/user.go:68-68 | keys and ids correspond one to one |
| `Redis.KeyExamples` | internal/storage/redis/user.go:68-68 | the key of id 7 is user:7, and which keys the scan pattern matches |
| `Redis.MSetWritesAll` | internal/storage/redis/user.go:60-71 | the map built first and written at once has the effect of the writes in order |
| `Redis.BatchRefinesUpsert` | internal/storage/redis/user.go:55-77 | a batch is the same last-wins update as in memory |
| `Redis.BatchesRefineUpserts` | internal/storage/redis/user.go:55-77 | so is any sequence of batches, those that cannot be marshalled left out |
| `Redis.OtherKeysUntouched` | internal/storage/redis/user.go:68-71 | keys that are not user entries are left alone |
| `Redis.ReadNeverFails` | internal/storage/redis/user.go:79-122 | a read among any creates finds every value, so the assertion error cannot happen, and entry k is the current user of key k |
| `Redis.ReadIsComplete` | internal/storage/redis/user.go:79-122 | it returns every user present when the scan began and only users present at the MGET |
| `Redis.ReadDuplicatesExactly` | internal/storage/redis/user.go:87-119 | a user is listed twice exactly if the scan repeated its key |
| `MySql.InsertRoundTrip` | internal/storage/mysql/user.go:45-67 | the server, taking the columns and placeholders from the text and binding the arguments, reads exactly the users in order, or, for an empty batch, no statement |
| `MySql.HeadText` | internal/storage/mysql/user.go:56-62 | the statement begins with the text of the source |
| `MySql.QueryExample` | internal/storage/mysql/user.go:45-62 | the statement for two users, literally |
| `MySql.PlaceholdersMatchArgs` | internal/storage/mysql/user.go:45-62 | as many placeholders as arguments, four per user, argument 4i+j being field j of user i |
| `MySql.UserStorage.Flatten` | internal/storage/mysql/user.go:45-54 | the loop builds one tuple of placeholders and four arguments per user |
| `MySql.UserStorage.Create` | internal/storage/mysql/user.go:35-73 | sends that statement once; nil exactly if it arrived, was accepted and was answered |
| `MySql.UserStorage.Read` | internal/storage/mysql/user.go:75-118 | all rows in order, or no users and an error if the query, a row or the end of the rows failed |
| `MySql.InsertAllExactly` | internal/storage/mysql/migrations/000001_create_table_users.up.sql:1-7 | the server takes a batch exactly if its primary keys are free and distinct |
| `MySql.CreateExactly` | internal/storage/mysql/user.go:35-73 | a create succeeds at the server exactly for a non-empty batch of free ids, and then the table is what memory would hold, up to the time column; otherwise nothing is stored |
| `MySql.SelectAndScan` | internal/storage/mysql/user.go:82-106 | the columns read are put into the fields they were written from |
| `MySql.ReadAfterCreate` | internal/storage/mysql/user.go:96-112 | a stored user is read back, up to what the time column keeps |
| `Stores.StoresAgree` | internal/storage/memory/user.go:21-33 | after any batches that marshal and use free ids, Redis and MySQL hold what memory holds |
| `Stores.ClashSplitsStores` | internal/storage/mysql/migrations/000001_create_table_users.up.sql:6-6 | a batch with a taken id updates memory and Redis and leaves MySQL unchanged |
| `Metrics.Callback.Collect` | internal/metrics/metrics.go:125-137 | the total grows by the reader's count since the last collection, which starts again at zero, and is what is observed |
| `Metrics.RegisterMetrics` | internal/metrics/metrics.go:111-165 | a callback, with its own copy of the collector, exactly if telemetry is on and registering it succeeds; else the error, if there is one |
| `Metrics.RegisterAll` | internal/consume/consumer.go:54-81 | one callback per consumer, each with a copy of one collector; the first refusal is the error, and then there are no consumers |
| `Metrics.Drive` | internal/metrics/metrics.go:125-137 | messages at any readers and collections of any callbacks, in any order, leave each reader, total and list of observed values as if that consumer were alone |
| `Metrics.Telemetry` | internal/consume/consumer.go:54-70 | so it is for any number of consumers registered with one collector |
| `Metrics.IsolatedExactly` | internal/metrics/metrics.go:111-131 | consumers are isolated exactly if no two totals share a cell, as the value receiver sees to |
| `Metrics.MessagesAreConserved` | internal/metrics/metrics.go:128-137 | exported plus uncollected is everything the reader counted, modulo 2^64 |
| `Metrics.ReportsExactly` | internal/metrics/metrics.go:125-137 | every collection reports once, and reports all the messages counted until then |
| `Metrics.TotalsAreMonotone` | internal/metrics/metrics.go:131-137 | reported totals never go down while the count fits an int64 |
| `Metrics.CollectionGoesDownExactly` | internal/metrics/metrics.go:131-131 | a total goes down exactly at a collection that overflows |
| `Lifecycle.LifecycleSafety` | internal/app/app.go:42-62 | components are spawned once each, in order; nothing is closed before all have returned; an error cancels the others |
| `Lifecycle.RunResult` | internal/app/app.go:42-56 | when Run has returned every component has, and the result is the first error reported, nil if there was none |
| `Lifecycle.CancelledExactly` | internal/app/app.go:42-56 | the components are cancelled exactly when one has reported an error, an interrupt came, or all have returned |
| `Lifecycle.AllClosedExactly` | internal/app/app.go:58-62 | every closer is closed, in order, exactly if none is nil; otherwise those before the first nil one |
| `Lifecycle.Close` | internal/app/app.go:58-62 | the closing loop does that |
| `Lifecycle.MainProgress` | cmd/main.go:16-28 | the program can always go on unless it waits for a component that is running; once all have returned it is up to main alone |
| `Lifecycle.LifecycleEnds` | internal/app/app.go:42-62 | n components and m closers take at most 3n+m+3 steps in any schedule, and where only an interrupt is possible the process has ended |
| `Lifecycle.BootstrapClosersExactly` | internal/bootstrap/bootstrap.go:40-68 | the closers are the Redis client, the closer of the storage or nil, and every Kafka reader, in this order |
| `Lifecycle.SqlClosesEverything` | internal/bootstrap/bootstrap.go:76-85 | with users in MySQL, an ended application has closed the Redis client, the database and every reader |
| `Lifecycle.MemoryStorageCrashesClose` | internal/bootstrap/bootstrap.go:76-85 | with the in-memory storage it has closed the Redis client and crashed on the nil closer, every reader still open |
| `Sanitise.AlphaOrHyphenExactly` | internal/sanitise/string.go:6-6 | the characters kept are the letters of the alphabet, small and capital, and the hyphen, listed literally |
| `Sanitise.SanitiseIsFilter` | internal/sanitise/string.go:5-9 | deleting maximal runs equals filtering character by character |
| `Sanitise.SanitiseMeaning` | internal/sanitise/string.go:5-9 | only letters and hyphens stay, all of them and in order; idempotent; distributes over concatenation |
| `Sanitise.SanitiseKeepsExactly` | internal/sanitise/string.go:5-9 | a text is unchanged exactly if it has only letters and hyphens |
| `Sanitise.SearchQueryIsSafe` | internal/user/search/controllerhttp.go:45-70 | a search is refused exactly below three letters and hyphens; otherwise the query has a star at each end and no other |
| `Sanitise.SearchExamples` | internal/user/search/controllerhttp.go:45-70 | a capitalised name is searched as typed; a term with one letter is refused |

## Left out

- Kafka, Redis, MySQL, Elasticsearch, Debezium, HTTP and gRPC as such: each is a small state with the answers it may give.
- Updates and deletes reaching the views: the program answers them with an error, and so does the model; no claim is made that a view follows them.
- Redis.ReadIsComplete: the promise of SCAN is an assumption about the pages it returns; the iteration itself is not modelled.
- MySql.CreateExactly: column lengths and the statement timeout are not modelled; a timed-out statement is a lost connection.
- Memory.RaceExactly: a race is a write during an iteration; accesses that do not overlap in time but are unordered by Go's memory model are not counted.
- NewConsumers: it makes a reader and a closer per consumer from the configuration; only its registration of metrics is modelled. The tracing decorator calls consume as it is.
- Labels and gauges of the metrics: constant attributes, and three numbers passed on from the reader.
- The schema client: only the outcome of decoding a message is modelled, and of the five bytes it strips only that shorter values panic; the registry request is not.
- Interactors, presenters, validators and the read and create controllers: they copy fields between structs and check lengths before a create.
- Ranking and wildcard matching in Elasticsearch, and the error body of a failed search.
- Telemetry, logging output, configuration parsing and generated code.
