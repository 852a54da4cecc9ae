# Verified model of a user service: outbox pipeline, sessions, cache, rate limits

This project models, in Dafny, the parts of the service whose correctness depends on interleaving, failure and
redelivery, and proves what they keep.

- **Outbox pipeline.** Creating a user writes the user and an outbox row in one transaction. Workers lease
  rows, publish them to Kafka and mark them. Consumers read the log, deduplicate, write an audit row and record
  the event as processed in one transaction.
- **Refresh tokens.** A refresh reads a token, checks it, inserts its successor, and revokes it if it is still
  unrevoked. Two refreshes of one token can both pass the check.
- **Cache-aside reads.** `GetUser` may answer from Redis; updates and deletes invalidate the entry.
- **Fixed-window rate limiters**, one in memory and one in Redis.

## How it is built

| file | what it holds |
|---|---|
| `Wrappers`, `Calls`, `Collections`, `Decimal` | options and results, call outcomes, sums over finite sets, decimal ids |
| `EventFormat` | outbox body, Kafka record, parsed event, audit row, and the conversions between them |
| `OutboxTable`, `OutboxRepository`, `OutboxWorker` | the row statements as functions; the repository, publisher and worker as classes proved against them |
| `Pipeline`, `PipelineInvariants` | creators and workers as a step system, and what every step keeps |
| `Origins` | which step of a run each row and each record goes back to, and the order of leases |
| `Leases`, `Attempts`, `Duplicates` | when leases exclude, what attempts count and when they are bounded, how often an event is published |
| `Creators` | create transactions that overlap, as a step system |
| `Consumers`, `KafkaConsumer`, `ConsumerLoop` | consumer transactions as a step system, the consumer as a class, and its loop over many polls |
| `EndToEnd` | both halves joined by the log, any consumer reading any record at any time |
| `ConsumerGroup`, `GroupLoop` | the same with committed offsets and positions, from which alone records are delivered, and the loop's moves in it |
| `Stranded`, `Finishing`, `Settling`, `SkippedEvent` | which events can no longer be processed, from where a run can settle, and a run that cannot |
| `Drain` | progress of repeated rounds |
| `TokenTable`, `Sessions` | refresh tokens, and session calls as a step system |
| `Users`, `Identity`, `DatabaseHistory`, `DatabaseSteps` | the creating and session services over one database as a class, whole histories of their calls, and their steps in the two systems |
| `UserCache`, `Staleness`, `CacheSteps` | the cached service as a class, sequential transparency, interleaved staleness, and the link between them |
| `RateLimit`, `SlidingBound`, `LimiterAgreement` | both limiters as classes, and what holds of whole call histories |

Code that changes state is a class whose methods are proved equal to functions on values; beside that their contracts
say which columns change, to what, and which call's failure leads to which answer, without naming those functions. Interleaving is a step
system: an action carries every choice of the environment, a run is a list of actions, and "in every run" is a
quantifier over all lists. `OutboxWorker.RoundIsRun`, `KafkaConsumer.PollIsRun`, `GroupLoop.PartitionIsMoves`,
`DatabaseSteps` and `CacheSteps` show that what the class methods do, nothing else interfering, is a run of the step
systems. What must hold of every run is proved with consumers that read freely, and `ConsumerGroup.GroupIsSystem`
carries it over to the group with its offsets; what can still be reached is proved of the group itself.

## Assumptions

- One SQL statement is one atomic step and transactions run under READ COMMITTED; a conflicting insert waits
  for the open transaction that holds the key. The last statement of a refresh holds the row lock, so it and the
  commit are one step.
- A publish call produces one record. It may append it and still report an error, it never reports success
  without appending, and after the worker's deadline it has no effect; a mark after the deadline has none either.
  Only this publisher writes to the topic.
- A partition's records are delivered in order from a consumer's position, which a failed record and a fetch error
  move on all the same. A consumer that joins, or joins again, starts at the committed offset, and in a group that has
  committed none at the start of the log, the client library's default, which the code leaves as it is. Any assignment
  of records to partitions is allowed. A consumer that has given up a partition commits no offset in it; one that is
  assigned to it once more counts as another consumer. The timeout of a consumer's transaction is an abort that the
  environment chooses. The log is never truncated.
- Time is the database's clock. A worker's clock reading is off by at most a configured skew, and its context
  measures true durations.
- A statement or a commit may take effect although its answer is lost; where that matters it is a choice of the
  environment. Sequences may have gaps.
- Times and windows are unbounded integers, ids too. Strings are byte strings. `TrimSpace`, `ToLower` and
  `mail.ParseAddress` are arbitrary functions, so every result holds whatever they do.
- Password hashes, token hashes and access tokens are inputs. The unique column is checked, not assumed.
- A protobuf payload is the value it encodes; encoding it and decoding it gives that value back.
- A hit returns at the moment of the cache read.

## Where the code keeps less than one may expect

- `attempts` has no upper bound: every reclaim of a stale lease adds one (`Leases.AttemptsUnbounded`). A row's
  attempts are the give-ups that took effect, the leases taken over, and the lease it is or was PROCESSED under
  (`Attempts.AttemptsAccounted`); they stay within the maximum exactly when no lease takes a PROCESSING row that
  has used them up (`Attempts.AttemptsBoundedIff`). The give-ups are bounded always
  (`PipelineInvariants.RetryBudget`).
- Leases exclude exactly when the process timeout and the clock skew together are at most the lock timeout. The
  configuration does not check this (`Leases.LeaseExclusionIff`). The duplication bound needs no such condition.
- Log copies plus publish calls still to come never exceed the attempts (`PipelineInvariants.DuplicationBound`).
  Counting every unfinished batch entry instead, the bound holds with the number of workers between the publish
  and the mark of that event as slack (`Duplicates.HoldingBound`). Without the slack it fails in the simplest run,
  one lease and one successful publish (`Duplicates.HoldingExceeds`); a spare attempt left by a crashed lease can
  make up for it.
- The `ON CONFLICT DO NOTHING` of the processed table is never needed: the unique audit key stops the second
  writer first (`EndToEnd.MarkNeverConflicts`), and without that key audit rows do double
  (`EndToEnd.AuditKeyIff`).
- A committed offset covers every earlier record when each poll starts at it, but the loop does not rewind after a
  failure (`KafkaConsumer.SkippedRecord`). Over the life of a process it covers them exactly when every record
  left behind below it had its event processed by some transaction all the same
  (`ConsumerLoop.LoopCoversIff`); it always does while no poll commits behind an earlier one that stopped short
  (`ConsumerLoop.CoversUnlessBehind`), and only then if events are distinct and failures leave no trace
  (`ConsumerLoop.CoversIffNeverBehind`).
- A user may never get an audit row. A run can still settle exactly while no event is stranded
  (`Settling.SettlesIff`): no row is FAILED, and each PROCESSED row has been processed, or has a copy that the
  committed offset or some position has not passed, or is in the hand of an open transaction, or is still owed its
  publish by a live worker. A record that fails while the next one succeeds is enough to strand its event, with no row
  FAILED (`SkippedEvent.SkippedForever`).
- The check for an existing email does not keep emails apart, since overlapping creations can all pass it
  (`Creators.BothPassTheCheck`); the unique column does (`Creators.EmailKeyIff`).
- The cache is transparent exactly when no invalidation is lost. One is lost when the cache delete fails, which
  the service logs and ignores, and also when an update or delete reaches the store but its answer does not come
  back, because the service then returns before it invalidates (`UserCache.TransparencyIff`). Otherwise only
  bounded staleness remains.
- The limiters agree exactly for windows of whole milliseconds; Redis refuses a shorter window and rounds a
  longer one down (`LimiterAgreement.AgreementIff`).
- `CreateUserWithProfile` checks its input before trimming it, `CreateUser` after; both contracts say which.

## Model

| member | source | states |
|---|---|---|
| EndToEnd.AuditIsExact | internal/kafkaconsumer/consumer.go:142-162 | In every run of any number of creators, workers and consumers with crashes, lost answers and redelivery, each audit row's source id is the one canonical decimal numeral of exactly one outbox row's id, and its user id, email and role are those the user was created with; no source id and no user has two audit rows |
| EndToEnd.SettledMeansAudited | internal/outbox/worker.go:112-135 | When a run settles (all rows PROCESSED, the whole log consumed) every user ever created has exactly one audit row, with its own data |
| EndToEnd.ProcessedIsAudited | internal/kafkaconsumer/consumer.go:142-162 | At every reachable state the processed event ids are the audited source ids |
| EndToEnd.AuditKeyIff | migrations/008_create_user_audit_events.sql:6 | Audit rows stay single in every run if and only if the source id column is unique |
| EndToEnd.TwinsWithoutAuditKey | internal/kafkaconsumer/postgres_idempotency_store.go:56-66 | Without the key, two overlapping consumers commit the same audit row twice although the processed insert has a primary key |
| Settling.SettlesIff | internal/kafkaconsumer/consumer.go:85-128 | From any reachable state of workers and consumer group, after whatever crashes, failures and losses, some continuation publishes every row and consumes every record if and only if no row is stranded: FAILED, or PROCESSED without being processed, in reach of any offset, in an open transaction or still owed by a live worker |
| Stranded.MoveKeepsStranded | internal/kafkaconsumer/consumer.go:85-184 | No step of any worker or consumer, and no join, skip or offset commit, makes a stranded event processable again |
| Stranded.ReachNeverGrows | internal/kafkaconsumer/consumer.go:88-107 | A record that the committed offset and all positions have passed is passed for good |
| SkippedEvent.SkippedForever | internal/kafkaconsumer/consumer.go:110-128 | A concrete run, one failed record followed by one that succeeds, leaves all rows PROCESSED and yet never settles |
| ConsumerGroup.GroupIsSystem | internal/kafkaconsumer/consumer.go:85-128 | Every run of the group with its offsets is a run of the system in which consumers read freely, so the audit results hold of it |
| GroupLoop.PartitionIsMoves | internal/kafkaconsumer/consumer.go:110-184 | The loop over one partition, whichever calls fail, is a run of the group that ends with the loop's tables, with the offset behind the last record it commits, and with the position behind the batch |
| EndToEnd.MarkNeverConflicts | internal/kafkaconsumer/postgres_idempotency_store.go:56-66 | In every run, a transaction that gets to mark its event finds it unmarked by every committed and every open transaction |
| Consumers.StepKeepsInv | internal/kafkaconsumer/tx.go:34-65 | Each statement of each interleaved consumer transaction keeps: audited ids are processed ids, audit ids are distinct, every audit row comes from a log record, and at most one open transaction has inserted a given source id |
| PipelineInvariants.RowStateMachine | internal/outbox/postgres_repository.go:153-205 | In every run NEW rows have attempts below the maximum, PROCESSING rows are exactly the locked ones, PROCESSED rows exactly those with a processing time and have no error, FAILED rows have used up their attempts and have an error |
| PipelineInvariants.RunMovesForward | internal/outbox/postgres_repository.go:83-205 | Along every run rows are never removed, their content never changes, PROCESSED and FAILED rows never change at all, attempts never fall, the log only grows at its end |
| PipelineInvariants.RetryBudget | internal/outbox/postgres_repository.go:179-205 | Over any run with any number of workers, crashes and reclaims, at most MaxAttempts MarkFailed calls take effect on one event |
| PipelineInvariants.DuplicationBound | internal/outbox/worker.go:92-128 | For every event, copies in the log plus workers that have yet to publish it never exceed its attempts, with no timeout assumption; a PROCESSED event is in the log |
| Duplicates.HoldingBound | internal/outbox/worker.go:92-128 | Copies plus all workers with the event in their unfinished batch exceed the attempts by at most the workers between its publish and its mark |
| Duplicates.HoldersSplit | internal/outbox/worker.go:98-128 | Every worker with the event in its unfinished batch either has yet to publish it or has yet to mark it, never both |
| Duplicates.HoldingExceeds | internal/outbox/worker.go:112-128 | A reachable state in which copies plus unfinished entries exceed the attempts by one |
| PipelineInvariants.OneEventPerUser | internal/user/service.go:403-428 | In every run every user ever committed has exactly one outbox row, telling of it as created, and every row belongs to such a user |
| PipelineInvariants.FetchKeepsDup | internal/outbox/postgres_repository.go:83-151 | A lease pays for each publication its worker newly owes with one attempt of that row |
| PipelineInvariants.StepKeepsLog | internal/outbox/kafka_publisher.go:63-90 | Every step keeps: each log record is that of some row, and each PROCESSED row has its record in the log |
| Leases.LeaseExclusionIff | internal/outbox/postgres_repository.go:83-110 | No event is ever unfinished with two live workers, in every run, if and only if process timeout plus clock skew is at most the lock timeout |
| Leases.MarkNeverMisses | internal/outbox/postgres_repository.go:153-177 | Under that condition a mark made before its worker's deadline always finds its row PROCESSING, so the zero-rows branch is not taken |
| Leases.LeaseStolen | internal/outbox/worker.go:58-90 | Otherwise a run exists in which a second worker, its clock ahead, leases an event whose first worker is still live |
| Leases.AttemptsUnbounded | internal/outbox/postgres_repository.go:91-110 | For every n a run exists in which one row has n attempts and no give-up at all |
| Attempts.AttemptsAccounted | internal/outbox/postgres_repository.go:91-111 | After every run a row's attempts equal its effective MarkFailed calls, plus the leases that took it while PROCESSING, plus one if it is PROCESSING or PROCESSED |
| Attempts.AttemptsBoundedIff | internal/outbox/postgres_repository.go:98-107 | After every run a row's attempts are within the maximum if and only if no lease of the run took it while PROCESSING with its attempts used up |
| OutboxTable.StatementsKeepRowOk | internal/outbox/postgres_repository.go:32-205 | Insert, lease and both marks keep the row invariant for every row |
| OutboxRepository.PostgresRepository.Create | internal/outbox/postgres_repository.go:32-81 | Adds exactly one row under a fresh id, with the given content, NEW, no attempts, no error, no lock, and the time of the call; nothing when the call fails; a lost answer leaves the row in place |
| OutboxRepository.PostgresRepository.Select | internal/outbox/postgres_repository.go:94-103 | Picks distinct unlocked eligible rows up to the limit, and leaves an eligible row out only when the batch is full of rows that are no younger |
| OutboxTable.LeaseByColumns | internal/outbox/postgres_repository.go:93-111 | A lease takes a row only while it is NEW, or PROCESSING under a lock older than the cutoff, and sets its status, lock and attempts and no other column; it leaves such a row out only if the batch is full of rows created no later |
| OutboxRepository.PostgresRepository.FetchBatch | internal/outbox/postgres_repository.go:83-151 | Leases such a selection, never more than the limit, and returns the rows as they now are; a lost answer leaves them leased |
| OutboxRepository.PostgresRepository.MarkProcessed | internal/outbox/postgres_repository.go:153-177 | Only while the row is PROCESSING, sets it PROCESSED at that time without lock and error, and reports success exactly when it did and the answer arrived |
| OutboxRepository.PostgresRepository.MarkFailed | internal/outbox/postgres_repository.go:179-205 | Only while the row is PROCESSING, clears its lock, keeps the reason, and makes it NEW while attempts are left, else FAILED; reports success exactly when it did and the answer arrived |
| OutboxWorker.KafkaPublisher.Publish | internal/outbox/kafka_publisher.go:63-90 | Appends one record or nothing, independently of the error it may report: key, payload, creation time, and seven headers, the id as its canonical numeral |
| OutboxWorker.Worker.ProcessEvent | internal/outbox/worker.go:112-135 | Publishes and then makes the mark that fits, changing the columns of that row only; succeeds exactly when the publish reported no error and the mark matched and answered |
| OutboxWorker.Worker.ProcessOnce | internal/outbox/worker.go:92-110 | One round: the whole leased batch is handled event by event, whatever happens to single events; a failed lease publishes nothing |
| OutboxWorker.BatchByRow | internal/outbox/worker.go:98-135 | Each PROCESSING row whose event is in the batch gets the mark of its own publish outcome, whatever happens to the others, and every other row stays as it is |
| OutboxWorker.BatchIsRun | internal/outbox/worker.go:98-135 | Handling any batch while time passes, past its deadline too, is a run of tick, publish and mark steps of the pipeline with the same rows and the same log |
| OutboxWorker.RoundIsRun | internal/outbox/worker.go:92-110 | A whole round, with a lease that answers, fails or loses its answer and a deadline that comes at any moment, is a run of the pipeline with the same rows and the same log |
| Origins.RecordsTellOfCreations | internal/outbox/kafka_publisher.go:63-90 | In every run each record in the log is the registration record of one create step of that run: its user, email and role, the numerals of its event and user ids, the service's constants, and the time of creation as timestamp |
| Origins.CreatedStays | internal/outbox/postgres_repository.go:32-81 | In every run the row of each create step is still there with the content and the creation time that step gave it |
| Origins.OlderFirst | internal/outbox/postgres_repository.go:93-111 | In every run a lease that takes an event takes every NEW event created before it, unless another statement holds that row |
| Drain.RoundLowers | internal/outbox/worker.go:92-135 | With marks that take effect, a round never raises the sum of max(1, MaxAttempts - attempts) over any set of rows and lowers it when it takes one of them, rows past MaxAttempts included |
| Drain.Drains | internal/outbox/worker.go:92-135 | As many rounds as that sum leave every row PROCESSED or FAILED |
| Drain.RunUntilDrained | internal/outbox/worker.go:58-90 | So many ticks of the worker's own loop do so |
| Drain.ServedWithinWeight | internal/outbox/postgres_repository.go:94-103 | A NEW row is leased before the rows ahead of it run out of weight |
| Drain.NoStarvation | internal/outbox/postgres_repository.go:94-103 | A NEW row is leased within k * MaxAttempts + 1 rounds, k being the other pending rows no younger than it, whatever younger rows are added |
| EventFormat.EventFromRecord | internal/kafkaconsumer/consumer.go:186-242 | The header loop computes the map in which the last header with a key wins, and the first missing header in the source's order is the one reported |
| EventFormat.ParseIff | internal/kafkaconsumer/consumer.go:186-242 | A record parses to an event if and only if the last header of each name gives the event's field and none that is required is missing or empty |
| EventFormat.FirstMissing | internal/kafkaconsumer/consumer.go:193-227 | A parse that fails names the first missing header, in the source's order; the message name is required of protobuf content only |
| EventFormat.AuditIff | internal/kafkaconsumer/user_registered_handler.go:29-77 | A record yields an audit row if and only if it is a well-formed user.registered record with the one content type, message name and version the handler takes, and the row then repeats its id and payload |
| EventFormat.PublishParseRoundTrip | internal/outbox/kafka_publisher.go:67-81 | A published record parses if and only if no required column of its row is empty, and then gives the row's fields back |
| EventFormat.RegistrationIff | internal/user/service.go:403-428 | The record published for a user this service created is the one with key user:<id>, its seven headers and its payload, as spelled out in constants, and no other |
| EventFormat.RecordInjective | internal/outbox/kafka_publisher.go:67-81 | Equal records come from the same id, content and creation time |
| EventFormat.OwnRecordsAudited | internal/kafkaconsumer/user_registered_handler.go:29-77 | The record of any row this service creates passes every check of the consumer and the handler and yields the audit row of its user |
| Decimal.FormatInjective | internal/outbox/kafka_publisher.go:67-81 | Different ids never render to the same decimal string, negative ones included |
| Decimal.FormatIff | internal/outbox/kafka_publisher.go:69 | A string is the rendering of an id if and only if it is a canonical numeral (no leading zero, a sign for negative numbers only) and reads back as the id |
| KafkaConsumer.Consumer.WithinTx | internal/kafkaconsumer/tx.go:34-65 | An event already processed changes nothing; any other is either refused without a trace, by a failing call, a format the handler does not take or a source id already audited, or leaves its audit row and its processed row, with partition, offset and type, together; a lost commit answer leaves both |
| KafkaConsumer.Consumer.ProcessRecord | internal/kafkaconsumer/consumer.go:130-184 | Deduplicates, handles, marks; commits the offset behind the record only after its event is processed; with no failing call succeeds exactly when the event is processed afterwards, and never when the transaction or the offset commit was not answered |
| KafkaConsumer.Consumer.ProcessPartition | internal/kafkaconsumer/consumer.go:110-128 | Stops at the first failing record, and commits the offsets of the records before it and no others, save its own if only the answer of that commit is lost |
| KafkaConsumer.Consumer.ProcessFetches | internal/kafkaconsumer/consumer.go:110-128 | Does so for every partition of a poll; a failure in one does not stop the others |
| KafkaConsumer.OffsetsCommitted | internal/kafkaconsumer/consumer.go:110-128 | After the first so many records of a batch the committed offset is the one behind the last of them |
| KafkaConsumer.RunProcesses | internal/kafkaconsumer/consumer.go:142-184 | Every record whose offset the loop commits is in the processed table afterwards, and nothing leaves the table |
| KafkaConsumer.PartitionIsRun | internal/kafkaconsumer/consumer.go:110-184 | The loop over a partition is a run of one consumer's transaction steps with the same tables, the log holding the records of all partitions |
| KafkaConsumer.PollIsRun | internal/kafkaconsumer/consumer.go:110-128 | The same for a whole poll over any number of partitions |
| ConsumerLoop.Run | internal/kafkaconsumer/consumer.go:85-108 | Over any list of polls, from the committed offset or from the start of a new group, the tables and the committed offset are those of the loop function, whose position moves on by what was fetched whatever fails |
| ConsumerLoop.LoopCoversIff | internal/kafkaconsumer/consumer.go:85-128 | After any polls of one process, with any faults and duplicates, the committed offset covers every lower record if and only if each record left behind below it had its event processed before or by some transaction that committed |
| ConsumerLoop.CoversUnlessBehind | internal/kafkaconsumer/consumer.go:85-128 | It covers them, whatever fails, if no poll commits while the committed offset is behind the position |
| ConsumerLoop.CoversIffNeverBehind | internal/kafkaconsumer/consumer.go:85-128 | With distinct events and failures that leave no trace, it covers them if and only if no poll does so |
| KafkaConsumer.RestartedPollsCover | internal/kafkaconsumer/consumer.go:85-128 | If each poll starts at the committed offset, the offset covers every lower record after any number of polls failing anywhere |
| KafkaConsumer.SkippedRecord | internal/kafkaconsumer/consumer.go:85-108 | Polls that go on behind a failed record commit past it |
| Sessions.OneChild | internal/auth/service.go:187-240 | In every interleaving of Refresh, Logout, Login, Register and user deletion, a refresh token is the parent of at most one committed token |
| Sessions.OneLiveTokenPerSession | internal/auth/refresh_token_repository.go:95-117 | Of the tokens that go back to one Login or Register at most one is unrevoked at any time |
| Sessions.SessionsConserved | internal/auth/service.go:187-264 | While a user exists its unrevoked tokens are its Logins and Registers less the Logouts that revoked a row, whatever refreshes commit, roll back or race |
| Sessions.NoOrphans | migrations/005_create_refresh_tokens.sql:3-11 | No refresh token and no profile outlives its user |
| Sessions.SecondRefreshRollsBack | internal/auth/refresh_token_repository.go:99-114 | Of two refreshes of one token that passed the check, the one that revokes second rolls back |
| Sessions.RefreshedInTime | internal/auth/service.go:193-206 | In every interleaving the refresh that issued a committed token had read its parent while that was neither revoked nor expired, however long it took to commit |
| Sessions.BothPassTheCheck | internal/auth/service.go:193-206 | A reachable state exists in which two refreshes of one token have both passed the check and either could commit |
| Sessions.StepKeepsChain | internal/auth/refresh_token_repository.go:95-117 | Each step keeps: a token with a child is not revocable, children are unique, and each session has at most one revocable token |
| Identity.RegisterTx | internal/auth/service.go:72-134 | The transaction body fails exactly when one of its calls fails or email or token hash is taken, and otherwise has added the user, its token and its event |
| Identity.CreateTx | internal/user/service.go:323-367 | The same for a user with or without a profile |
| Identity.RefreshTx | internal/auth/service.go:192-234 | The body answers unauthorized exactly when no token with the hash is both unrevoked and not yet expired, and otherwise inserts the successor and revokes the spent token in the same snapshot, or changes nothing |
| Identity.Database.Register | internal/auth/service.go:61-141 | Which failing call, or email or hash in use, leaves everything as it was; otherwise the new user, its first token and its NEW event are there column by column, together, also if only the commit's answer is lost; the invariant of one event per user is kept |
| Identity.Database.CreateUser | internal/user/service.go:93-149 | A trimmed name of 2 to 100 bytes, a normalised address of at most 255 bytes and an age from 0 to 150 are required, and exactly the fields that fail are reported; then user and event are committed together column by column, or nothing if a call fails or the email is in use |
| Identity.Database.CreateUserWithProfile | internal/user/service.go:303-373 | The same checks on the untrimmed input; then user, profile and event are committed together column by column, or nothing |
| Users.InvalidFieldsIff | internal/user/service.go:375-401 | Name, email and age are each reported exactly when their own check fails, and nothing else is |
| Identity.Database.Login | internal/auth/service.go:143-170 | With an unknown email or a wrong password the same error and no change; otherwise one token of that user with the given hash and expiry, or nothing if a call fails |
| Identity.Database.Refresh | internal/auth/service.go:187-240 | Unauthorized, with nothing changed, exactly when no token with the hash is unrevoked and unexpired; otherwise that token is revoked now and its user has the new one instead, or nothing changes if a call fails |
| Identity.Database.Logout | internal/auth/service.go:242-264 | Sets the revocation time of the unrevoked token with the hash and of no other; an unknown or already revoked token is no error and no change |
| Identity.Database.Update | internal/user/postgres_repository.go:209-248 | Changes name, email, age and update time of one row to the given values and no other column, or reports a missing row or an email in use and changes nothing |
| Identity.Database.Delete | internal/user/postgres_repository.go:283-300 | Removes the user, its profiles and its tokens and nothing else, and leaves the outbox alone |
| Identity.RotationKeepsSessions | internal/auth/service.go:187-240 | Rotation keeps the number of unrevoked tokens of every user, and no token with the spent hash is unrevoked afterwards |
| Creators.EmailKeyIff | migrations/001_create_users.sql:5 | With any number of overlapping creations, changes and deletions, every run keeps one user per email if and only if the column is unique |
| Creators.OneEventEach | internal/user/service.go:114-143 | In every such run each user ever committed has exactly one event, with the data it was created with, and each event belongs to such a user |
| Creators.BothPassTheCheck | internal/auth/service.go:72-79 | Two creations of one email can both pass the check |
| Creators.SecondInsertRollsBack | internal/user/postgres_repository.go:34-69 | With the unique column the second insert waits for the first and rolls back once that has committed |
| Creators.CommitIsCreate | internal/auth/tx.go:40-68 | The commit of a create transaction is the pipeline's create step |
| DatabaseHistory.EventsMatchUsers | internal/user/service.go:403-428 | After any history of calls a user has an event if and only if it ever was in the table, it has one only, and that holds the email and role of its first appearance, whatever failed, was updated or deleted |
| DatabaseSteps.CreationIsStep | internal/user/service.go:114-143 | The user and event a creation commits are those of the pipeline's create step |
| DatabaseSteps.CreationIsRun | internal/user/service.go:114-143 | A creation with nobody else at work is a run of the overlapping creators, and their check refuses an email in use |
| DatabaseSteps.RegisterIsRun | internal/auth/service.go:61-141 | A committed registration is a register step of the session system |
| DatabaseSteps.CreateIsRun | internal/user/service.go:303-373 | A committed creation, with or without a profile, is a create step of the session system |
| DatabaseSteps.LoginIsRun | internal/auth/service.go:143-170 | A login's new token is a login step of the session system |
| DatabaseSteps.RefreshIsRun | internal/auth/service.go:187-240 | A committed refresh is its read and its revoke-and-commit step, and the new token's parent is the spent one |
| DatabaseSteps.RolledBackIsRun | internal/auth/service.go:208-225 | A refresh that fails after its check is its read and a finish that rolls back, and leaves every table as it was |
| DatabaseSteps.LogoutIsRun | internal/auth/service.go:242-264 | A logout that revokes is its read and its revoke step |
| DatabaseSteps.FailedLogoutIsRun | internal/auth/service.go:259-261 | A logout whose revoke fails is its read and a revoke that fails, and leaves every table as it was |
| DatabaseSteps.DeleteIsStep | internal/user/postgres_repository.go:283-300 | A deletion with its cascades is the session system's delete step |
| UserCache.UserService.GetUser | internal/user/service.go:151-179 | A hit answers with the cached columns and touches neither store nor cache; a miss answers with the stored user without its password hash, and puts its seven columns into the cache unless that write fails; an unknown id and a failing store each have their error |
| UserCache.UserService.UpdateUser | internal/user/service.go:201-255 | The checks of CreateUser; each of its three store calls may fail on its own; success stores and returns trimmed name, normalised email, age and time, keeps the other columns, and drops the cache entry unless that call fails; a lost answer keeps the entry |
| UserCache.UserService.DeleteUser | internal/user/service.go:257-280 | Removes the user with its profile and tokens; drops the entry only after a delete that was answered |
| UserCache.CacheRoundTripIff | internal/user/user_cache.go:40-62 | A user survives the cache if and only if it carries no password hash |
| UserCache.CacheTransparent | internal/user/service.go:151-280 | Calls that do not overlap get the same answers with and without the cache, however cache reads, cache writes and expiry go; where the store cannot be read the cache may answer, and then gives what the store holds |
| UserCache.TransparencyIff | internal/user/service.go:234-252 | This holds of all histories if and only if neither cache deletes nor answers of store changes can be lost |
| UserCache.ReadYourWrite | internal/user/service.go:201-255 | After an update that was answered and whose invalidation was not lost, every later read of the user that succeeds, from the cache or the store, gives the updated columns, whatever reads, evictions and calls for other users come in between |
| UserCache.LostInvalidation | internal/user/service.go:257-280 | A loss of either kind serves a user that no longer exists |
| Staleness.BoundedStaleness | internal/user/service.go:151-179 | In any interleaving of readers, writers, invalidations and expiry, with any of them lost or overtaken, a returned user was the stored one at a moment less than TTL plus the read-to-set delay before |
| Staleness.StalenessBoundTight | internal/user/user_cache.go:85-100 | For every TTL and delay some run returns a user that was not stored in any shorter interval, although its invalidation reached the cache |
| CacheSteps.GetIsRun | internal/user/service.go:151-179 | A cached read is a run of the interleaved system and returns the same user |
| CacheSteps.WriteIsRun | internal/user/service.go:201-280 | An update, a delete, an insert and an expiry are runs of the interleaved system with the same store and entry |
| RateLimit.Limiter.Allow | internal/ratelimit/limiter_in_memory.go:34-61 | Refuses exactly when the limit is positive and the key's window is open and full; counts up within the window, opens a new one at its end, and keeps no entry for a limit that is not positive; this is the function the histories below are about |
| RateLimit.RedisLimiter.IncrAndExpire | internal/ratelimit/redis_limiter.go:13-19 | The script counts any stored value up, an absent key from zero, and sets the expiry when the new count is one |
| RateLimit.RedisLimiter.Allow | internal/ratelimit/redis_limiter.go:35-62 | Counts every call under the prefixed key, sets the expiry with the first of a window, rounded down to milliseconds, and allows up to the limit; a window under a millisecond, a failing script and a lost answer are errors, never an allowance |
| SlidingBound.SlidingBound | internal/ratelimit/limiter_in_memory.go:34-61 | In every history in clock order, over all keys, each interval of a window's length holds at most 2 * limit - 1 allowed calls of a key |
| SlidingBound.SlidingBoundReached | internal/ratelimit/limiter_in_memory.go:44-60 | For every limit and every window of two or more ticks some history reaches that bound |
| LimiterAgreement.SameCounters | internal/ratelimit/redis_limiter.go:13-19 | After every history the two limiters hold the same window for each key, and the in-memory count is the Redis count cut off at the limit |
| LimiterAgreement.LimitersAgree | internal/ratelimit/redis_limiter.go:35-62 | For whole-millisecond windows both limiters answer every call of every history alike |
| LimiterAgreement.AgreementIff | internal/ratelimit/redis_limiter.go:35-62 | They agree on all histories in clock order if and only if every limited key has a positive window of whole milliseconds |

## Left out

- HTTP and gRPC handlers, middleware, validation tags, error-to-status mapping: one-branch plumbing.
- JWTs, bcrypt, SHA-256, random generation, protobuf and JSON bytes: library code, inputs here.
- Listing, pagination, ILIKE search and sort strings; `Me`, `GetUserByEmail` and other plain reads.
- Configuration loading, telemetry, metrics, observers, logging, health checks, shutdown order.
- Truncation of the error reason to 1000 bytes; it does not affect the state machine.
- The 32-bit width of the `attempts` column: `attempts` is unbounded here.
- The endless loops of the worker and the consumer: `Drain.RunTicks` takes a number of ticks, polls are a list.
- Profiles and tokens in overlapping create transactions: `Creators` follows the user and its event; `Identity` has all of it with one transaction at a time.
- A produce request still in flight after its call has returned: it is assumed to have ended with the call.
- Clock readings taken before the limiter's mutex may be used out of order: histories are in clock order for the sliding bound; `LimiterAgreement.LimitersAgree` does not need that.
- Rounding of the TTL inside the Redis client, and Redis evicting or losing limiter keys.
- A nil transaction factory, which makes the two creating calls of the user service fail at once.
- A Redis limiter key without an expiry, which only something other than the script could leave.
- LimiterAgreement.LimitersAgree: speaks of histories in which Redis answers every call; while it fails it counts less, or answers with an error, and the in-memory limiter has no such case.
- EndToEnd.SettledMeansAudited: says what holds once a run has settled. `Settling.SettlesIff` says when it still can, and `Drain` that one worker whose marks take effect gets every row done; that the whole system must settle would need fairness of its environment, which nothing promises.
- OutboxWorker.RoundIsRun: the linking lemmas, here and for the consumer, the database and the cache, take one actor's calls with no other actor in between; interleavings are what the step systems are about.
