# Notifications: a Dafny model

This project models the parts of the notifications service whose behaviour is
hard to see from one function at a time, and proves what they keep:

- **The job queue** (`JobTable`, `JobQueue`, `QueueSafety`, `QueueLaws`,
  `DeliveryRuns`, `RetryLimit`, `DeliveredOnce`, `DeliveryStatus`,
  `UnlockEffects`, `Worker`). `gobble` is a queue on one SQL table that many
  processes share; only gorp's version column guards it. `JobQueue` is a
  transition system: a shared table, a clock of whole seconds, and any number of
  agents, each a call of `Perform` with the copy of the job it holds. Each
  SELECT and each versioned UPDATE or DELETE is one step, and every other agent
  may move in between. `Worker` is the code as it is written, with loops and
  calls, and shows that each of its executions is a run of that system.
- **gorp's statements** (`GorpPlans`, `GorpText`, `GorpCas`, `GorpJobs`,
  `GorpInsertText`, `GorpInsert`, `GorpQueue`). The generated text is read back
  as a statement with a meaning, and that statement is shown to be the
  compare-and-set that the queue relies on.
- **The drivers** (`Listener`, `ListenerAnswers`, `ListenerDeadlock`,
  `ListenerProgress`, `ReadBuffer`, `Packets`, `MysqlConn`, `LengthEncoded`,
  `Bytea`). The listener protocol of the Postgres driver as a transition system;
  the MySQL driver's buffer, packets and length-encoded values on real arrays;
  the bytea formats.
- **Tables with a meaning** (`Preferences` and `PreferenceStore`, `Registrar`
  and `KindsStore`, `Mailer`). The repositories and services work on rows with
  primary keys, statement by statement, any of which may fail; what they leave
  behind is a plain set or map expression, about which the theorems speak.
- **Two smaller machines** (`SmtpSession`, `SmtpCrash`, `SmtpServer`,
  `NthParser`, `NthWords`, `NthGrammar`, `NthChild`). The SMTP session against
  the client's transcript (section 4.1.4 of RFC 5321), and the an+b micro-syntax
  with its matcher (section 6.6.5.2 of Selectors Level 3).

`dafny verify dfyconfig.toml` checks all of it.

## Modelling decisions

- Where the code and its comments or the expected behaviour disagree, the model
  follows the code: STARTTLS does not require a new EHLO although a comment says
  so; an update of a struct of version 0, or of the last 64-bit version, is not
  guarded by the version; a payload whose length is a multiple of 2^24-1 cannot
  be read back; messages sent between queries can be taken as the answer of the
  next query, even before it is written to the socket, and two queries can wait
  for each other's lock for ever; a client of the SMTP server can make a handler
  index past a slice; a length-encoded string can announce a length that panics;
  "queued" can overwrite "delivered"; a very negative b makes the nth-child test
  overflow.
- The callback of a worker may change the job it is given but not its ID or its
  version, which the delivery callback never touches. Its back-off counts from
  the moment it asks for the retry.
- The listener's server is unconstrained. What it sends waits on the wire,
  stamped with the number of queries it had received and ended by then; a query
  counts as received when its write succeeds, and may have been when its write
  fails.
- The application calls `Unlock` when it starts. What that call may find is part
  of the theorems: they say exactly which `Unlock`s exclusion survives.
- In the queue's transition system a version is an unbounded integer; the
  modules that connect it with gorp wrap it and say which runs are too short to
  tell.
- The characters of a selector are characters, not bytes: a code above 127
  stands for one character.
- Auto-increment keys are not used twice. `RowsAffected` counts changed rows, as
  MySQL does; a versioned UPDATE of a loaded struct always changes the row it
  selects.
- Network, SMTP server, token and user lookups, template packing, GUIDs and the
  clock are inputs: every answer they can give is covered. A failing SQL
  statement is a nondeterministic choice at each statement.
- Disjunctions of shifted bytes are written as sums, Go's `int` is 64 bits wide,
  and wrap-around and truncated division are written out.

## Model

| member | source | states |
|---|---|---|
| `QueueSafety.AtMostOneHolder` | gobble/queue.go:47-126 | In every interleaving of any number of workers, provided each `Unlock` comes while nobody holds a job, two agents that hold the same job are one agent, and its copy carries the version stored in the row. |
| `QueueSafety.FinishNeverFails` | gobble/worker.go:24-38 | Under the same condition the Requeue or Dequeue that ends `Perform` always finds its row: no `OptimisticLockError`, no panic, at any point of any run. |
| `QueueSafety.ExclusiveRun` | gobble/queue.go:65-126 | The exclusion invariant (holders are current and own their row; what a finder saw free is still free while its copy is current; no two holders of one job) is carried through every such run. |
| `UnlockEffects.UnlockIsSafeIff` | gobble/queue.go:96-101 | From any state that keeps the exclusion invariant: after `Unlock` no continuation without another `Unlock` ever has two holders of one job, exactly when nobody holds a job at that moment. |
| `UnlockEffects.AlwaysSafeIff` | gobble/queue.go:65-126 | A run never comes to a state from which, without another `Unlock`, a job can get two holders, exactly when each of its `Unlock`s comes while nobody holds a job. |
| `QueueSafety.VersionChain` | gobble/queue.go:65-126 | With `Unlock` at any moment: the successful writes on a job consume the versions one after the other, start with the insert, end with the dequeue if there is one, and the row is present exactly until then, carrying the version of the last write. |
| `QueueSafety.VersionConsumedOnce` | gobble/queue.go:65-126 | Of two successful writes on one job the later one consumed a higher version, so at most one claim, release, requeue or dequeue succeeds per version and no update is lost. |
| `QueueSafety.StaleAttemptChangesNothing` | gobble/queue.go:47-126 | In every reachable state a versioned attempt takes effect exactly when its copy carries the current version; then one entry with the attempt's own kind is journalled, the row is gone if it is a dequeue and else holds the copy with the version bumped, and no other row is touched; otherwise table and journal are unchanged and the agent drops the job. |
| `QueueSafety.JobsConserved` | gobble/queue.go:38-94 | In every run the jobs enqueued are as many as the rows present plus the jobs dequeued, and every row was enqueued. |
| `QueueSafety.UnlockBreaksExclusion` | gobble/queue.go:96-101 | A concrete run in which `Unlock` lets two agents run the same job, only the second of which is still current. |
| `QueueLaws.EnqueueStores` | gobble/queue.go:38-45 | In every run an INSERT adds one row under a key that was never used, with the job's own columns and its version plus one, and changes nothing else. |
| `QueueLaws.FindLoads` | gobble/queue.go:103-117 | A row can be found exactly when it has no worker and is due, and the copy is the row. |
| `QueueLaws.ClaimTakes` | gobble/queue.go:65-79 | In every run a claim whose copy is current gives the row the agent's worker ID and the next version, leaves its other columns and all other rows, and the agent goes on with that row; otherwise nothing changes and it searches again. |
| `QueueLaws.ReleaseFrees` | gobble/queue.go:81-84 | In every run a release whose copy is current leaves the row with no worker and the next version and otherwise as it was; in any case the goroutine ends. |
| `QueueLaws.ReleasedIsFound` | gobble/queue.go:81-84 | A job released in any run can be found at once by any agent that is searching. |
| `QueueLaws.FinishWrites` | gobble/queue.go:47-94 | In every run a Requeue whose copy is current stores the columns the callback left with the next version, a Dequeue removes the row; otherwise the table is unchanged and the process has panicked. |
| `QueueLaws.RequeueBacksOff` | postal/delivery_worker.go:152-163 | A delivery worker's requeue leaves the row with no worker, its payload, one retry more than the k < 10 it had, and due 2^k minutes after the callback asked for it. |
| `QueueLaws.UnlockFrees` | gobble/queue.go:96-101 | `Unlock` clears the worker of every row and changes nothing else. |
| `JobQueue.BaseRun` | gobble/queue.go:38-126 | The version chains, the copies never ahead of their rows and the job count are kept by every run. |
| `JobQueue.BaseStep` | gobble/queue.go:38-126 | Each single step (enqueue, find, claim, release, hand-off, halt, callback, requeue, dequeue, crash, unlock, clock) keeps that invariant. |
| `DeliveryRuns.RetriesBounded` | postal/delivery_worker.go:152-163 | Even with `Unlock`, a delivery job has at most 10 successful requeues and 1 successful dequeue; the delays asked for sum to at most 1023 minutes, exactly 2^retries - 1 minutes while the row exists, and fit 64-bit nanoseconds. |
| `RetryLimit.TenRetriesAreMade` | postal/delivery_worker.go:152-163 | The bounds are reached: a delivery run in which the job fails ten times, is requeued exactly ten times with 1023 minutes of back-off in all, and is still in the table. |
| `RetryLimit.EleventhFailureGivesUp` | postal/delivery_worker.go:152-163 | The run goes on: the eleventh failure dequeues the job, whose message was never mailed. |
| `DeliveryRuns.BackoffRespected` | gobble/job.go:33-38 | Even with `Unlock`, every claim that follows a requeue decided with retry count k (0 to 9) comes at least 2^k minutes after that decision on the whole-second clock. |
| `DeliveryRuns.DequeuedAtMostOnce` | gobble/queue.go:89-94 | In any run nothing is written to a job after its successful dequeue. |
| `DeliveryRuns.RetryRun` | postal/delivery_worker.go:75-163 | Retry counts, due times and back-off bookkeeping of rows, copies and journal are kept by every run of delivery workers. |
| `DeliveredOnce.DeliveredAtMostOnce` | postal/delivery_worker.go:131-150 | With distinct message IDs, and provided each `Unlock` comes while nobody holds a job and no job that was mailed or reported delivered is left in the table, no job is mailed twice, and after a worker stores "delivered" for a message no worker stores its status again. |
| `UnlockEffects.UnlockIsOnceSafeIff` | gobble/queue.go:96-101 | With nobody at work: after `Unlock` no delivery continuation without another `Unlock` mails a job twice or lets a worker store a status after its "delivered", exactly when every job that was mailed or reported delivered has left the table. |
| `UnlockEffects.AlwaysOnceSafeIff` | postal/delivery_worker.go:131-150 | A delivery run whose `Unlock`s come while nobody is at work never comes to a state from which a message can be delivered twice, exactly when each of them finds no delivered job in the table. |
| `DeliveredOnce.UnlockAfterCrashMailsTwice` | application/application.go:93-95 | A concrete run in which a worker dies between the mail and the dequeue, the next start of the application calls `Unlock` while nobody is at work, and the message is mailed again. |
| `DeliveryStatus.EndsDeliveredIff` | postal/strategies/mailer.go:68-84 | In the order of the steps, the mailer storing its "queued" at most once per job: a message that a worker stored as "delivered" ends "delivered" exactly when the mailer's write for that job does not come after the worker's. |
| `DeliveryStatus.QueuedOverwritesDelivered` | postal/strategies/mailer.go:68-84 | A concrete run in which the job, enqueued before its message row is written, is delivered first and "queued" overwrites "delivered". |
| `Worker.World.FindJob` | gobble/queue.go:103-117 | The polling loop, with the other processes moving before each SELECT, is a run of the transition system that ends holding a copy of a row that has no worker and is due, or still searching. |
| `Worker.World.Reserve` | gobble/queue.go:65-87 | The find-then-claim loop is a run that ends holding a job whose row carries this worker's ID and the copy's version and columns, or gives up when killed; a lost race starts it over. |
| `Worker.World.Release` | gobble/queue.go:81-84 | A worker that finds the queue closed gives its claim back: the row ends with no worker, the next version, its other columns as they were, and due; or, only if an `Unlock` came while somebody held a job, the copy was stale and nothing was written. Either way the goroutine is gone. |
| `Worker.World.Finished` | gobble/queue.go:47-52 | Requeue or Dequeue either writes exactly one journal entry for the version held, or panics leaving the table unchanged, and panics only if the run contains an `Unlock` taken while somebody held a job. |
| `Worker.World.Perform` | gobble/worker.go:24-38 | Whatever the other processes do between any two statements, and whenever the halt signal arrives, `Perform` with the delivery callback is a run of the transition system; it panics only after an `Unlock` taken while somebody held a job; if it completes, its write is a requeue exactly when the delivery neither succeeded nor was unwanted and fewer than ten retries were made, else a dequeue; a job it dequeues was mailed, is not wanted or had ten retries. |
| `Worker.World.LeaveBehind` | gobble/worker.go:24-38 | After a halt the goroutine that reserves goes on as any process may: it may claim a job and strand it, but in no continuation does it come to run one. |
| `Worker.World.Deliver` | postal/delivery_worker.go:75-129 | The callback leaves the job as it was exactly when the mail was accepted or not wanted, or ten retries were made; every failure on the way (payload, receipt, token, user, send) asks for a retry otherwise; a job it leaves without a retry was mailed, is not wanted or has none left; a status is stored only after the decision to deliver. |
| `Worker.World.TrySending` | postal/delivery_worker.go:131-141 | Failed when the message does not pack or the server refuses it, unavailable when the server cannot be reached, delivered otherwise. |
| `Worker.World.SendMail` | postal/delivery_worker.go:131-141 | deliver is a run that ends with that status reported, and a message counts as mailed when it is delivered. |
| `Worker.World.Store` | postal/delivery_worker.go:143-150 | The status is stored for the message, or the failure to store it goes unnoticed. |
| `Worker.JobRef.ScheduleRetry` | postal/delivery_worker.go:152-163 | The job is untouched exactly when ten retries were made; otherwise it asks for a requeue, is nobody's, counts one retry more and is due 2^retries minutes from now; its ID, version and payload never change. |
| `GorpPlans.TableMap.BindUpdate` | Godeps/_workspace/src/github.com/coopernurse/gorp/gorp.go:397-453 | The cached UPDATE plan is the rendering of the statement that assigns every stored, non-auto-increment column and selects by key and version, with its argument fields in placeholder order. |
| `GorpPlans.TableMap.BindDelete` | Godeps/_workspace/src/github.com/coopernurse/gorp/gorp.go:455-499 | The same for the DELETE plan. |
| `GorpPlans.CreateBindInstance` | Godeps/_workspace/src/github.com/coopernurse/gorp/gorp.go:286-327 | The arguments are the named fields' values, the version placeholder gets the existing version plus one in 64 bits, and a struct of version 0 is bumped on the way. |
| `GorpCas.PlaceholdersMatchIff` | Godeps/_workspace/src/github.com/coopernurse/gorp/gorp.go:397-499 | The text of either plan contains exactly as many question marks as the plan has argument fields, if and only if no name in it contains one. |
| `GorpCas.UpdateIsCompareAndSet` | Godeps/_workspace/src/github.com/coopernurse/gorp/gorp.go:1920-1970 | For any mapping with distinct names and one stored, non-key version column, and a struct of version 1 to 2^63-2: if a row has the struct's key and version, that row alone changes, each stored non-auto-increment column to its own field and the version to one more; otherwise nothing changes and the result is an `OptimisticLockError` that tells whether the key exists. |
| `GorpCas.DeleteIsCompareAndRemove` | Godeps/_workspace/src/github.com/coopernurse/gorp/gorp.go:1872-1918 | The same for DELETE: exactly the row with that key and version goes, or nothing does and the lock error is reported. |
| `GorpCas.LockErrorIff` | Godeps/_workspace/src/github.com/coopernurse/gorp/gorp.go:1920-1970 | An update reports a lock error exactly when the struct's version is at least 1 and no row has its key and version. |
| `GorpCas.CompareAndSetIff` | Godeps/_workspace/src/github.com/coopernurse/gorp/gorp.go:1920-1970 | For every 64-bit version: the update is that compare-and-set if and only if a current row exists and the version is neither 0 nor 2^63-1, or none exists and the version is at least 1. |
| `GorpCas.LastVersionWraps` | Godeps/_workspace/src/github.com/coopernurse/gorp/gorp.go:286-327 | At version 2^63-1 the sum wraps: the current row and the struct get version -2^63, and no later update of that struct is ever refused. |
| `GorpCas.ZeroVersionIsNoCompareAndSet` | Godeps/_workspace/src/github.com/coopernurse/gorp/gorp.go:286-327 | A struct of version 0 is not protected, whatever the table holds. |
| `GorpCas.ZeroVersionSelectsOne` | Godeps/_workspace/src/github.com/coopernurse/gorp/gorp.go:286-327 | Its UPDATE selects a row of version 1. |
| `GorpText.RenderRoundTrip` | Godeps/_workspace/src/github.com/coopernurse/gorp/gorp.go:397-499 | The text of an UPDATE or DELETE whose names hold no backtick is read back as the very statement it renders, so the text alone decides what is executed. |
| `GorpCas.PlansReadBack` | Godeps/_workspace/src/github.com/coopernurse/gorp/gorp.go:397-499 | For any mapping with such names, the text in either cached plan reads back as the statement the theorems are about. |
| `GorpCas.RunUpdateThrough` | Godeps/_workspace/src/github.com/coopernurse/gorp/gorp.go:1920-1970 | Binding, executing what the text says and judging the affected rows through the cached plan gives the rows and the result of that update, for any version and any mapping whose names hold no backtick. |
| `GorpCas.RunDeleteThrough` | Godeps/_workspace/src/github.com/coopernurse/gorp/gorp.go:1872-1918 | The same for delete. |
| `GorpJobs.JobUpdateIsCasIff` | gobble/queue.go:119-126 | On the `jobs` table gorp's update of a job of any 64-bit version, 0 included, has the effect and the result of the statement that the transition system interleaves, exactly unless the job is current at version 2^63-1. |
| `GorpQueue.StepIsGorps` | gobble/queue.go:47-126 | In every run of fewer than 2^63-1 steps with jobs enqueued as `NewJob` makes them, each claim, release, requeue and dequeue leaves exactly the rows that gorp's generated statement leaves, and is stale exactly when gorp reports the lock error. |
| `GorpJobs.UnloadedJobOverwrites` | gobble/queue.go:119-126 | A job of version 0 overwrites another worker's row of version 1. |
| `GorpJobs.JobDeleteIsCas` | gobble/queue.go:89-94 | The same for delete. |
| `GorpJobs.JobsMapped` | gobble/job.go:8-16 | The mapping gorp derives from `Job` meets the conditions of these theorems. |
| `GorpInsert.BindInsert` | Godeps/_workspace/src/github.com/coopernurse/gorp/gorp.go:339-395 | The INSERT text lists every stored column with a placeholder or "null", and its argument fields follow the placeholders. |
| `GorpInsertText.InsertRoundTrip` | Godeps/_workspace/src/github.com/coopernurse/gorp/gorp.go:339-395 | The text of an INSERT whose names hold no backtick is read back as its table, its columns and, for each column, "null" or a placeholder. |
| `GorpInsert.RunInsertThrough` | Godeps/_workspace/src/github.com/coopernurse/gorp/gorp.go:1972-2031 | Binding, executing what the text says and setting the generated key stores exactly the record of `InsertStoresEveryColumn` and hands the caller its struct with that key, a version of at least 1 and all other fields as they were. |
| `GorpInsert.InsertStoresEveryColumn` | Godeps/_workspace/src/github.com/coopernurse/gorp/gorp.go:339-395 | The new row holds the generated key, the struct's version plus one in 64 bits, and every other stored column from its own field, and no other column. |
| `GorpInsert.JobInsertIsInsertedIff` | gobble/queue.go:38-45 | Enqueueing stores the row the transition system inserts, whose version starts the chain, exactly unless the job comes with version 2^63-1. |
| `Listener.ListenerSafe` | Godeps/_workspace/src/github.com/lib/pq/notify.go:89-206 | For every interleaving of senders, receive loop, server messages and connection loss: the reply channel never holds more than 2 messages and its sender never blocks, no sender reaches the "two queries running at the same time" panic, and every reply is taken by the query it was accepted for. |
| `ListenerProgress.GivesUpIff` | Godeps/_workspace/src/github.com/lib/pq/notify.go:127-174 | The loop ends exactly on an unexpected message, on an error or a completion when no response is due, and on a ready message before the response. |
| `ListenerProgress.GoesOn` | Godeps/_workspace/src/github.com/lib/pq/notify.go:127-174 | When it goes on, an error or a ready message is put on the channel and moves the state, a completion moves the state only, a notification or a notice neither. |
| `ListenerProgress.SuccessIsReported` | Godeps/_workspace/src/github.com/lib/pq/notify.go:270-322 | From any reachable state in which a query waits for its response on a live loop with nothing on the wire, the server's completion and ready message have a continuation in which the query takes the ready message alone and returns, with no error noted and the state idle. |
| `ListenerProgress.FailureIsReported` | Godeps/_workspace/src/github.com/lib/pq/notify.go:270-322 | The server's error and ready message have one in which it takes both, in that order. |
| `ListenerProgress.WaitingExpects` | Godeps/_workspace/src/github.com/lib/pq/notify.go:241-322 | In every run, a query that waits for its response on a live loop with nothing on the wire is in the situation that the two rows above start from. |
| `ListenerProgress.NoQueryAfterClose` | Godeps/_workspace/src/github.com/lib/pq/notify.go:324-332 | After Close no query that comes later ever gets past the check for an error, in any run. |
| `ListenerProgress.RefusedAfterError` | Godeps/_workspace/src/github.com/lib/pq/notify.go:89-97 | A query that finds the error set returns at the check, gives the lock back and sends nothing. |
| `ListenerAnswers.AnswersIffOwed` | Godeps/_workspace/src/github.com/lib/pq/notify.go:127-174 | For every interleaving and every server: all replies taken answer the query that takes them, that is, were sent after the server had received that query, exactly when the server sent all of them while it owed an answer to some query it had received and not ended. |
| `ListenerAnswers.FirstStrayReply` | Godeps/_workspace/src/github.com/lib/pq/notify.go:127-174 | The first reply taken that does not answer its query is the first one the server sent without owing an answer. |
| `ListenerAnswers.PoliteServerIsAnswered` | Godeps/_workspace/src/github.com/lib/pq/notify.go:270-322 | With a server that sends error, completion and ready messages only to queries it has received and not yet ended, every reply consumed answers the query in flight, however late it is read. |
| `ListenerAnswers.TakenByItsQuery` | Godeps/_workspace/src/github.com/lib/pq/notify.go:270-322 | A reply is an error or a ready message, taken by the query that had the state when the loop accepted it. |
| `ListenerAnswers.StraysEndQuery` | Godeps/_workspace/src/github.com/lib/pq/notify.go:245-254 | A concrete interleaving: an error and a ready message sent before any query wait in the socket, are accepted between setState and the write, and end a query that has not reached the server. |
| `Listener.Preserved` | Godeps/_workspace/src/github.com/lib/pq/notify.go:241-322 | Every lock operation, compare-and-swap, channel and socket operation keeps the protocol invariant. |
| `ListenerDeadlock.ReturnsIff` | Godeps/_workspace/src/github.com/lib/pq/notify.go:89-97 | A query whose write failed, or whose connection was lost, has a continuation in which it returns, exactly unless it needs somebody to take the connection lock while that lock is held by a query that saw no error, or is about to see none, and waits for the sender lock. |
| `ListenerDeadlock.StuckForever` | Godeps/_workspace/src/github.com/lib/pq/notify.go:89-97 | Such a deadlock is permanent: in every run from it neither query returns, no lock changes hands, the connection is never closed or cleaned up, and no other query is ever sent. |
| `ListenerDeadlock.FailedWriteDeadlocks` | Godeps/_workspace/src/github.com/lib/pq/notify.go:270-289 | A concrete run into it: a write fails and a second query takes the connection lock first. |
| `ListenerDeadlock.LostConnectionDeadlocks` | Godeps/_workspace/src/github.com/lib/pq/notify.go:270-322 | Another: the connection is lost while one query waits for its reply and a second one comes in. |
| `ReadBuffer.Reader.Read` | Godeps/_workspace/src/github.com/go-sql-driver/mysql/buffer.go:50-67 | Any io.Reader: a chunk of its choosing lands in the array, with or without an error; it is never asked for zero bytes. |
| `ReadBuffer.Buffer.Fill` | Godeps/_workspace/src/github.com/go-sql-driver/mysql/buffer.go:36-69 | Sliding, growing and reading leave the stream ahead of the caller unchanged; success means the bytes are buffered, and on a connection without failures it succeeds whenever the stream still holds them. |
| `ReadBuffer.Buffer.ReadNext` | Godeps/_workspace/src/github.com/go-sql-driver/mysql/buffer.go:73-85 | Returns exactly the next bytes of the stream and advances by them, or nothing is lost. |
| `ReadBuffer.Buffer.ReadAll` | Godeps/_workspace/src/github.com/go-sql-driver/mysql/buffer.go:73-85 | For any sequence of requests and any chunking, the slices returned and what is left concatenate to the stream. |
| `ReadBuffer.Buffer.TakeBuffer` | Godeps/_workspace/src/github.com/go-sql-driver/mysql/buffer.go:91-106 | Gives room for writing exactly when no unread byte is buffered, and disturbs none. |
| `Packets.RoundTrip` | Godeps/_workspace/src/github.com/go-sql-driver/mysql/packets.go:26-122 | For every payload, starting sequence number and following bytes: reading what was written gives the payload, stops right behind it and agrees on the next sequence number (modulo 256), exactly when the length is not a multiple of 2^24-1; otherwise the empty last packet is refused. |
| `Packets.FrameIs` | Godeps/_workspace/src/github.com/go-sql-driver/mysql/packets.go:80-122 | The bytes on the wire: three for the length, lowest first, one for the sequence number, then the payload; a payload of 2^24-1 bytes or more goes on in a packet with the next sequence number. |
| `Packets.WrongSequenceRefused` | Godeps/_workspace/src/github.com/go-sql-driver/mysql/packets.go:26-77 | A packet with another sequence number than expected is refused, and the error tells whether it is ahead. |
| `MysqlConn.Conn.WritePacket` | Godeps/_workspace/src/github.com/go-sql-driver/mysql/packets.go:80-122 | What goes over the wire is the framing of the bytes the slice held on entry, so headers written in place only cover bytes already sent; bytes outside the slice are untouched; a payload above the limit is refused before anything is sent. |
| `MysqlConn.Conn.ReadPacket` | Godeps/_workspace/src/github.com/go-sql-driver/mysql/packets.go:26-77 | Whatever the chunking, a packet returned is the one the stream holds; on a connection without failures every outcome (packet, out of sync, bad connection) is the stream's. |
| `MysqlConn.Conn.WriteCommandLongData` | Godeps/_workspace/src/github.com/go-sql-driver/mysql/packets.go:691-740 | For every argument and limit above 8 the packets sent are the argument's pieces in order, each behind its command, from one array whose unsent bytes are intact; it ends, and never exceeds the limit. |
| `MysqlConn.PiecesAreTheArgument` | Godeps/_workspace/src/github.com/go-sql-driver/mysql/packets.go:691-740 | The pieces concatenate to the argument, and each has between 1 and limit - 8 bytes. |
| `MysqlConn.CommandIs` | Godeps/_workspace/src/github.com/go-sql-driver/mysql/packets.go:691-740 | In front of each piece stand the command byte, the statement's ID in four bytes and the parameter's in two, lowest byte first. |
| `LengthEncoded.IntegerRoundTrip` | Godeps/_workspace/src/github.com/go-sql-driver/mysql/utils.go:685-726 | Every uint64, followed by anything, is read back with the exact byte count. |
| `LengthEncoded.EncodeInteger` | Godeps/_workspace/src/github.com/go-sql-driver/mysql/utils.go:713-726 | An encoding has 1 to 9 bytes and starts neither with the NULL marker 0xfb nor with 0xff. |
| `LengthEncoded.EncodingIs` | Godeps/_workspace/src/github.com/go-sql-driver/mysql/utils.go:713-726 | Numbers below 251 are themselves; others follow a marker 252, 253 or 254 in 2, 3 or 8 bytes, the k-th with the weight 256^k. |
| `LengthEncoded.NullIff` | Godeps/_workspace/src/github.com/go-sql-driver/mysql/utils.go:685-711 | NULL is the single byte 0xfb, for numbers and for strings, and nothing else is. |
| `LengthEncoded.TextRoundTrip` | Godeps/_workspace/src/github.com/go-sql-driver/mysql/utils.go:650-682 | Every string whose encoding is shorter than 2^63 bytes is read back whole with the exact count, and skipping it agrees. |
| `LengthEncoded.IntegersRoundTrip` | Godeps/_workspace/src/github.com/go-sql-driver/mysql/utils.go:685-726 | Any list of uint64 values, encoded one behind the other, is read back and nothing more is consumed. |
| `LengthEncoded.TextsRoundTrip` | Godeps/_workspace/src/github.com/go-sql-driver/mysql/utils.go:650-664 | The same for any list of strings. |
| `LengthEncoded.ReadTextPanicsIff` | Godeps/_workspace/src/github.com/go-sql-driver/mysql/utils.go:650-664 | For every input: reading a string panics exactly when the header is cut off or the announced length is at least 2^63 minus the bytes of the header, where the 64-bit sum turns negative. |
| `LengthEncoded.SkipTextOfTooLong` | Godeps/_workspace/src/github.com/go-sql-driver/mysql/utils.go:666-682 | For exactly those lengths skipping reports success with a count that ends before the text begins; for all others the count is header plus length. |
| `LengthEncoded.LargestIntPanics` | Godeps/_workspace/src/github.com/go-sql-driver/mysql/utils.go:650-664 | The length 2^63-1, which does fit an int, panics. |
| `Bytea.RoundTrip` | Godeps/_workspace/src/github.com/lib/pq/encode.go:278-343 | For every byte string and either server-version format, parsing what was printed gives it back. |
| `Bytea.EscapedIsNotHex` | Godeps/_workspace/src/github.com/lib/pq/encode.go:278-279 | What the escape format prints never starts like the hex format. |
| `Bytea.PrintableOutput` | Godeps/_workspace/src/github.com/lib/pq/encode.go:325-343 | Both formats print visible ASCII only. |
| `Bytea.ParseBytea` | Godeps/_workspace/src/github.com/lib/pq/encode.go:278-323 | The loop that copies raw runs in one go agrees with reading the escape format byte by byte, rejects what it must, and ends. |
| `Bytea.EncodeBytea` | Godeps/_workspace/src/github.com/lib/pq/encode.go:325-343 | The loop prints the format, and the result parses back to the argument. |
| `Bytea.NewFormatIs` | Godeps/_workspace/src/github.com/lib/pq/encode.go:325-343 | From server version 9.0 on the text is the prefix and two lower-case digits for each byte. |
| `Bytea.OldFormatIs` | Godeps/_workspace/src/github.com/lib/pq/encode.go:325-343 | Before it a printable byte is itself, a backslash is doubled, and any other byte is a backslash and three octal digits. |
| `Bytea.OldFormatConcat` | Godeps/_workspace/src/github.com/lib/pq/encode.go:325-343 | The old format prints byte by byte. |
| `Bytea.ParsedIff` | Godeps/_workspace/src/github.com/lib/pq/encode.go:278-323 | A text without the hex prefix is parsed as given bytes exactly when it is made of one piece for each of them; everything else is rejected. |
| `Preferences.DeliveryFollowsLastUpdates` | postal/delivery_worker.go:165-208 | After any history of committed and rolled-back updates and of changes to the kinds, a message is delivered exactly when its kind was critical in the kinds registered last, or the user's last committed global flag is off, the last committed choice for that client and kind (if any) is to receive it, and the address contains "@". |
| `Preferences.CommittedUpdate` | web/services/preference_updater.go:27-66 | A committed update sets the user's flag as asked and, for each kind it mentions, the unsubscription exactly if email was refused; other users and other kinds are as they were. |
| `Preferences.OrderDoesNotMatter` | web/services/preferences_builder.go:55-77 | Whatever order the maps are iterated in, the update leaves the same set of unsubscriptions. |
| `Preferences.BuiltDocument` | web/services/preferences_builder.go:30-53 | A document built by `Add` is accepted, mentions exactly the kinds added, and carries for each the entry added last. |
| `PreferenceStore.PreferencesBuilder.Add` | web/services/preferences_builder.go:30-53 | The last preference for a client and kind stands, with its count, its choice and its descriptions or else the IDs; no other kind is affected, and a document that would be accepted stays one. |
| `PreferenceStore.Database.FindPreferences` | web/services/preferences_finder.go:23-43 | The document the user is shown carries the global flag of the table and is the one built from the preferences listed, unless a lookup fails. |
| `Preferences.FetchedUpdateChangesNothing` | web/services/preferences_builder.go:30-77 | Sending back unchanged the document built from preferences that say what the tables say commits and leaves every table as it was. |
| `PreferenceStore.ToPreferences` | web/services/preferences_builder.go:55-77 | Succeeds exactly when every client has a kind and every kind an email field, and then lists every choice exactly once. |
| `PreferenceStore.Database.SetGlobal` | models/global_unsubscribes_repo.go:19-46 | Afterwards the user is among the globally unsubscribed exactly when asked for, nobody else is affected, and the table keeps one row per user. |
| `PreferenceStore.Database.GetGlobal` | models/global_unsubscribes_repo.go:48-58 | Reports membership, or the failed lookup. |
| `PreferenceStore.Database.Create` | models/unsubscribes_repo.go:22-32 | Adds the row, or reports the duplicate or the failure and adds nothing. |
| `PreferenceStore.Database.Upsert` | models/unsubscribes_repo.go:46-55 | Afterwards the unsubscription is stored, once, whether or not it was before. |
| `PreferenceStore.Database.Destroy` | models/unsubscribes_repo.go:71-81 | Afterwards it is not stored, and no other row is affected. |
| `PreferenceStore.Database.Execute` | web/services/preference_updater.go:27-66 | Succeeds exactly when no statement fails and every kind exists and is not critical, and then stores the flag and all choices in order; the first preference that cannot be changed decides the error. |
| `PreferenceStore.Database.UpdatePreferences` | web/handlers/update_preferences.go:57-76 | The transaction commits or leaves the tables as they were: the new contents are those of the history model for this update, with the flag and every choice as the document says; a bad document or a kind that cannot be changed is answered as invalid, and a server error only after a failed statement. |
| `PreferenceStore.Database.IsCritical` | postal/delivery_worker.go:201-208 | A failed lookup counts as not critical. |
| `PreferenceStore.Database.Decide` | postal/delivery_worker.go:165-199 | Without failures the decision is the specified one, and a critical kind is always delivered; with failing lookups it never delivers what the tables forbid. |
| `Registrar.RegisterThenPrune` | web/services/registrar.go:23-50 | Key by key, for every request list: which kinds exist afterwards and what they hold, for the client and for all others. |
| `Registrar.ExactlyTheRequested` | web/services/registrar.go:23-50 | With non-empty IDs under the client's own ID its kinds are exactly the requested IDs, with the last entry's description and criticality and the last non-empty template, else the prior one, else the default; other clients are untouched. |
| `Registrar.EmptyIDKept` | web/services/registrar.go:29-32 | An entry without an ID is not written but keeps a stored kind with an empty ID from being pruned. |
| `Registrar.RegisterIsIdempotent` | web/services/registrar.go:23-50 | Repeating a registration changes nothing but update times. |
| `KindsStore.Registry.CreateKind` | models/kinds_repo.go:37-53 | Adds the kind with both times set to now and the template "default" unless one is given, or reports the duplicate or the failure and adds nothing. |
| `KindsStore.Registry.UpdateKind` | models/kinds_repo.go:89-107 | Replaces the kind under its key, keeping its creation time and, unless one is given, its template; reports a kind that does not exist. |
| `KindsStore.Registry.UpsertKind` | models/kinds_repo.go:109-121 | One of the two, by whether the kind exists. |
| `KindsStore.Registry.Contains` | models/kinds_repo.go:11-18 | Membership. |
| `KindsStore.Registry.Trim` | models/kinds_repo.go:123-140 | Exactly the client's kinds that are not listed disappear. |
| `KindsStore.Registry.FindClient` | models/clients_repo.go:39-49 | Returns the row stored under the ID with its primary key, or reports that there is none or that the lookup failed. |
| `KindsStore.Registry.CreateClient` | models/clients_repo.go:24-37 | Adds the client with the default template unless one is given, or reports the duplicate or the failure and adds nothing. |
| `KindsStore.Registry.UpdateClient` | models/clients_repo.go:61-76 | Replaces the row with the given primary key, keeping the stored template unless one is given; success means it was read back. |
| `KindsStore.Registry.UpsertClient` | models/clients_repo.go:78-91 | Stores the client under the primary key it was found with or under a new one, keeping the creation time and, unless one is given, the template of an existing one; every client keeps exactly one row. |
| `KindsStore.Registry.Register` | web/services/registrar.go:23-40 | The client and then every kind with an ID are stored, in order. |
| `KindsStore.Registry.Prune` | web/services/registrar.go:42-50 | Keeps the requested IDs only. |
| `KindsStore.Registry.RegisterNotifications` | web/handlers/register_client_with_notifications.go:72-95 | Commits Register and, if kinds were sent, Prune, or leaves both tables as they were; committed, every named kind sent is stored and the client has no kind whose ID was not sent. |
| `Mailer.Outbox.Deliver` | postal/strategies/mailer.go:32-91 | On success every user gets an answer with "queued", the message ID and the address or else the user's GUID, every job of the map is on the queue once and exactly these messages are "queued"; on failure there is no answer and no message row is kept, but the jobs enqueued so far stay on the queue; every job enqueued is one user's with that user's message ID. |
| `Mailer.Outbox.SendAll` | postal/strategies/mailer.go:66-84 | In any iteration order no job is enqueued twice, and at every exit a message row that was written has its job on the queue already. |
| `Mailer.JobPerUserIff` | postal/strategies/mailer.go:36-64 | There are as many jobs as users exactly when no generated GUID came twice. |
| `Mailer.LastUserKeepsGuid` | postal/strategies/mailer.go:45-54 | When a GUID comes twice only the last user's delivery is kept. |
| `Mailer.Outbox.Upsert` | models/messages_repo.go:46-57 | Afterwards the message has the status, and no other message is affected. |
| `SmtpSession.DeliveredEnvelope` | Godeps/_workspace/src/bitbucket.org/chrj/smtpd/protocol.go:164-342 | In every session each envelope handed to the handler has 1 to MaxRecipients recipients, namely those of the RCPT commands accepted since the last accepted MAIL with nothing in between that ends a transaction; the peer introduced itself, TLS is on if forced, and the data is the client's and shorter than MaxMessageSize. |
| `SmtpCrash.DeliversExactlyWhen` | Godeps/_workspace/src/bitbucket.org/chrj/smtpd/protocol.go:282-336 | In every session DATA hands something over exactly when no earlier turn crashed it, a transaction with at least one accepted recipient is open, and a complete body below the limit follows. |
| `SmtpCrash.CrashesIff` | Godeps/_workspace/src/bitbucket.org/chrj/smtpd/protocol.go:25-37 | For every sequence of inputs, from the transcript alone: the session indexes past a slice exactly when some turn is a blank line; or MAIL without an address to parse after an accepted greeting, with TLS if forced and no transaction open; or RCPT without one in an open transaction below the limit; or AUTH without a mechanism after a greeting, under TLS, with an authenticator. |
| `SmtpCrash.TurnCrashesIff` | Godeps/_workspace/src/bitbucket.org/chrj/smtpd/protocol.go:356-372 | The same for the next turn of a session that is alive. |
| `SmtpCrash.MailWithoutColonCrashes` | Godeps/_workspace/src/bitbucket.org/chrj/smtpd/protocol.go:164-204 | A greeting and a MAIL whose parameter has no colon crash every server that does not force TLS. |
| `SmtpSession.SessionAgrees` | Godeps/_workspace/src/bitbucket.org/chrj/smtpd/protocol.go:99-342 | After any inputs the session's envelope is what the client's accepted commands add up to. |
| `SmtpSession.AddressIs` | Godeps/_workspace/src/bitbucket.org/chrj/smtpd/address.go:8-19 | The address of a parameter is what stands between the brackets behind its first colon, if it contains at most one "@"; without the brackets, or with more, it is ill-formatted, and an empty one is an index out of range. |
| `SmtpCrash.GreetingSurvivesTLS` | Godeps/_workspace/src/bitbucket.org/chrj/smtpd/protocol.go:241-280 | A MAIL right after an accepted STARTTLS is accepted exactly when the peer had introduced itself before it and the address is well formed and accepted: no new EHLO is required. |
| `SmtpServer.Server.HandleHelo` | Godeps/_workspace/src/bitbucket.org/chrj/smtpd/protocol.go:99-125 | Accepted exactly when there is a name and the checker agrees, and then that is the peer's name; no introduced peer is forgotten; a repeated greeting with a name clears the envelope even if the checker refuses it. |
| `SmtpServer.Server.HandleMail` | Godeps/_workspace/src/bitbucket.org/chrj/smtpd/protocol.go:164-204 | An envelope that is open stays as it is; otherwise one is open afterwards, with the address as its sender and no recipients, exactly when the peer is introduced, TLS is on if forced, and the address is well formed and accepted; 250 says exactly that one was opened, and a crash opens none. |
| `SmtpServer.Server.HandleRcpt` | Godeps/_workspace/src/bitbucket.org/chrj/smtpd/protocol.go:206-239 | No envelope is opened or closed and its sender stays; the address is added at the end exactly when the limit is not reached, it is well formed and accepted, and exactly then the answer is 250. |
| `SmtpServer.Server.HandleStartTLS` | Godeps/_workspace/src/bitbucket.org/chrj/smtpd/protocol.go:241-280 | TLS is never switched off, is switched on exactly when it was off, is configured and the handshake succeeds, and exactly then the answer is 220 and the envelope is dropped. |
| `SmtpServer.Server.HandleData` | Godeps/_workspace/src/bitbucket.org/chrj/smtpd/protocol.go:282-336 | Hands the envelope with the client's data over and clears it exactly when it has a recipient and a complete body below the limit follows; refuses a larger one and clears; leaves the envelope after a network error or when there is nothing to send. |
| `SmtpServer.Server.HandleAuth` | Godeps/_workspace/src/bitbucket.org/chrj/smtpd/protocol.go:355-459 | The user name is set, with 235, exactly when there is an authenticator, a greeting, TLS, a mechanism and credentials that decode and are accepted; without a mechanism the session crashes. |
| `SmtpServer.Server.HandleXclient` | Godeps/_workspace/src/bitbucket.org/chrj/smtpd/protocol.go:461-558 | Overrides the names it is given, with 220, exactly when XCLIENT is enabled and the command can be decoded. |
| `SmtpServer.Server.Serve` | Godeps/_workspace/src/bitbucket.org/chrj/smtpd/smtpd.go:222-255 | The state, the transcript and the envelopes handed over are those of the specification for any inputs, including lines that are too long. |
| `NthGrammar.FormIsRead` | Godeps/_workspace/src/code.google.com/p/cascadia/parser.go:563-681 | Every form of an+b (signs, omitted numbers, either case, spaces and comments, odd and even in any spelling), wherever it stands before ")", is read as what it means with the cursor on the ")"; it is rejected exactly when a number does not fit an int. |
| `NthGrammar.OnlyFormsAreRead` | Godeps/_workspace/src/code.google.com/p/cascadia/parser.go:563-681 | Whatever the parser accepts is one of these forms, standing where the cursor moved over it and read as what it means. |
| `NthWords.NameAt` | Godeps/_workspace/src/code.google.com/p/cascadia/parser.go:20-131 | Every spelling of a word (letters, codes of up to five hex digits with one optional white space, quoted characters) that a ")" ends is read as that word. |
| `NthWords.NameWithin` | Godeps/_workspace/src/code.google.com/p/cascadia/parser.go:20-131 | Whatever is read as a word spells it. |
| `NthGrammar.EscapedOddIsRead` | Godeps/_workspace/src/code.google.com/p/cascadia/parser.go:563-600 | `od\64` is read as odd. |
| `NthGrammar.PlainRoundTrip` | Godeps/_workspace/src/code.google.com/p/cascadia/parser.go:563-681 | For all integers a and b the decimal text an+b, anywhere before a ")", is read back as (a, b) exactly when both magnitudes are at most 2^63-1. |
| `NthGrammar.MeaningIs` | Godeps/_workspace/src/code.google.com/p/cascadia/parser.go:563-681 | A number alone is the offset, an omitted factor is one, an omitted tail zero, odd is 2n+1 and even 2n. |
| `NthParser.Parser.ParseNth` | Godeps/_workspace/src/code.google.com/p/cascadia/parser.go:563-681 | The cursor-moving parser computes the specified result and leaves the cursor where it says. |
| `NthParser.Parser.SkipWhitespace` | Godeps/_workspace/src/code.google.com/p/cascadia/parser.go:230-255 | The cursor stops behind the longest run of spaces and closed comments. |
| `NthGrammar.SkipIsSpaced` | Godeps/_workspace/src/code.google.com/p/cascadia/parser.go:230-255 | Skipping reaches the end of a text exactly when it consists of white space and comments, each opened, closed and not closed before its end. |
| `NthParser.Parser.ParseName` | Godeps/_workspace/src/code.google.com/p/cascadia/parser.go:100-131 | The loop over runs of name characters and escapes yields the decoded name and leaves the cursor behind it; a bad escape or an empty name is an error. |
| `NthParser.Parser.ParseEscape` | Godeps/_workspace/src/code.google.com/p/cascadia/parser.go:20-56 | One escape is decoded and the cursor left behind it, including the white space that belongs to it. |
| `NthParser.Parser.ParseInteger` | Godeps/_workspace/src/code.google.com/p/cascadia/parser.go:543-560 | Reads the longest run of digits, and rejects an empty one and a value above 2^63-1. |
| `NthChild.TestIsDefinitionIff` | Godeps/_workspace/src/code.google.com/p/cascadia/selector.go:395-400 | For every 64-bit a and b and every position: the test with wrapped subtraction and truncated division holds exactly when some n >= 0 gives a*n + b, exactly unless the subtraction overflows in the stated way. |
| `NthChild.TestIsDefinition` | Godeps/_workspace/src/code.google.com/p/cascadia/selector.go:395-400 | No overflow, hence the definition, whenever position - b is below 2^63 (in particular for b >= 0). |
| `NthChild.LeastOffsetMatchesNothing` | Godeps/_workspace/src/code.google.com/p/cascadia/selector.go:395-400 | With a = 1 and b = -2^63 every position matches by definition and none by the test. |
| `NthChild.FindPosition` | Godeps/_workspace/src/code.google.com/p/cascadia/selector.go:371-393 | The walk yields the 1-based position among the qualifying siblings, from the front or from the back. |
| `NthChild.PositionIs` | Godeps/_workspace/src/code.google.com/p/cascadia/selector.go:371-393 | From the front the position is the number of elements (of the same name, if asked for) up to and including the child, from the back the number from the child on. |
| `NthChild.Select` | Godeps/_workspace/src/code.google.com/p/cascadia/selector.go:360-402 | An element is selected exactly when its position satisfies an+b, unless the subtraction overflows. |

## Left out

- Liveness: that a job is eventually claimed, that a halted worker's claim is ever freed, that a listener eventually answers.
- Mutual exclusion after an `Unlock` taken while a job is held: the code does not provide it (`QueueSafety.UnlockBreaksExclusion`).
- gorp's reflection over structs, embedded structs, hooks, type converters and dialects other than MySQL; the mapping is taken as given.
- MySQL's case-insensitive collation: IDs are compared exactly.
- Two transactions at once on the preference or kind tables: requests are served one after the other.
- Listener reconnection and the notification channel of the Postgres driver: only the query protocol of one connection.
- The join that lists a user's preferences, templates and their referential integrity, receipts.
- HTTP routing, JSON decoding, validation of critical scopes, metrics and logs.
- AUTH's exchange of credentials and the decoding of XCLIENT's attributes: their outcome is an input.
- Reply codes that a checker or the delivery handler chooses itself: a refusal is answered 502.
- Splitting an SMTP line into a verb and fields: a line arrives as fields, or as a blank line, on which the code's parser indexes past the end.
- MysqlConn.Conn.WriteCommandLongData: asks for a packet limit above 8, because with a smaller one the loop of the code does not advance.
