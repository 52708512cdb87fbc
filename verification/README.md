# hyuqueue in Dafny

hyuqueue keeps work items in leased queues, lets an intake model triage them, a human ack them and a
review model retire them, and records every change in an append-only event log. Topics, which are
subprocesses speaking JSON-RPC 2.0, create items, execute activities and keep settings. This project
models that behaviour and proves what the design promises of it.

`dafny verify dfyconfig.toml` checks everything. One module per file:

| file | what it models |
|---|---|
| `Rfc3339.dfy` | the timestamp text in `queue_items`: calendar, 0/3/6/9-digit fractions, reading back, and why SQLite's text order is time order |
| `Storage.dfy`, `Events.dfy`, `Items.dfy` | the tables as a mutable `Database`, the log, item rows and the dedupe constraint |
| `Queue.dfy`, `Views.dfy`, `QueueRuns.dfy` | the leased queue's operations, what clients see without claiming, runs of operations by any number of workers |
| `LoopWorld.dfy`, `IntakeLoop.dfy` | what the model and the topics answer and what a loop over them must send, execute and return; the bounded agentic loop with parallel dispatch that does |
| `Transactions.dfy`, `Ingest.dfy` | the composed transactions, batch creation with dedupe |
| `IntakeWorker.dfy`, `ReviewWorker.dfy` | one whole pass of each worker |
| `Replay.dfy`, `Pipeline.dfy` | reading the log back, and the server as a concurrent protocol over all its transactions |
| `Server.dfy` | the store's methods, called one after another on one database, as a run of that protocol |
| `Agreement.dfy`, `UntrustedTopic.dfy` | exactly which runs keep log and tables in agreement when topics may answer with anything, and runs that do not |
| `TopicProto.dfy`, `TopicSdk.dfy`, `TopicHost.dfy`, `TopicChannel.dfy` | the topic protocol: typed errors, the topic's loop, the host's multiplexer against any remote, both joined by two pipes |
| `TopicData.dfy`, `SettingsRuns.dfy` | settings as event then projection, and exactly which runs keep the two the same |
| `Counter.dfy`, `CounterTopic.dfy` | the example topic over crashes and restarts, alone and through the topic loop, the sink and the tables |
| `SqlSplit.dfy` | the migration script splitter |

How the parts are shaped:

- Code that changes state is a method on a class or on `Database`, and its contract gives the whole new
  state as a function of the old one. The same functions are the transitions of the state machines.
- Concurrency is interleaving. `QueueRuns.Run`, `Pipeline.Run`, `TopicHost.Run`, `TopicChannel.Run`,
  `Counter.Run` and `CounterTopic.Run` are sequences of states joined by steps, and the main results are about
  every such run. In `Pipeline` each committed transaction is a step; a worker's slow work lies between its
  claim step and its finalize step, and a finalize may come at any time, from any worker id, with any outcome.
  `Pipeline.AnyRun` puts no condition on topics; `Pipeline.Run` asks that they answer activities with no
  lifecycle event.
- A result about a method is stated on its inputs and outputs where it can be: `LoopWorld.LoopIs`, the line forms of
  `SqlSplit`, `TopicSdk.OutputIs` and the `Is..` predicates of the workers name none of the functions the code's
  own steps are written with.
- Outside answers are parameters: clock readings, ids, the language model's replies, what a topic answers.
- `Rows` hold timestamp texts, as the table does; methods take instants.
- Replay is strict: a log in which something happens twice or out of order does not replay at all. So
  agreement between log and tables also gives exactly-once.

Where the code and its own comments differ, the model follows the code:

- `renew_lease` says it fails when the lease has expired (`crates/store/src/queue.rs:244-247`); it checks
  only the recorded holder, so an expired lease can be renewed (`QueueRuns.ExpiredLeaseIsRenewed`). `release`,
  `complete` and `move_item` check the holder alone too.
- `crates/core/src/event.rs:3-4` says the tables are projections of the events. For items and queues that
  holds in exactly the runs in which no committed intake finalize carried a lifecycle event that a topic had
  returned (`Agreement.RunAgreesExactly`; `UntrustedTopic.ForgedRunParts` is a run where one did). For
  settings it holds at a key exactly when the last committed write to that key was kept: it was a setting
  whose table write succeeded, or the table had that value already (`SettingsRuns.SettingsAgreeExactly`). It
  fails in two ways: a table write that fails after its event (`SettingsRuns.FailedUpsertParts`), and a
  `TopicDataUpdated` event that a topic returned from an activity, which is logged and never stored
  (`UntrustedTopic.ForgedSettingParts`).
- `crates/topic-example/src/main.rs:69-73` says ticks after a restart have fresh ids. That holds over any
  crashes and restarts as long as no activity leaves the counter below the last tick answered, delivered or
  not (`Counter.TicksStrictlyIncrease`), and that condition is exact in every safe state
  (`Counter.ActivityIsSafeExactly`; `Counter.ResetRepeatsATick` and `Counter.AdjustUnderAnUnreadTick` fail).
- `crates/server/src/workers/intake.rs:6-8` lists the queue change first; the code appends the activity
  events, then the analysis, then changes the queue.

## Model

| member | source | states |
|---|---|---|
| Rfc3339.TextLessIsStrict | crates/store/src/queue.rs:150-151 | the byte order SQLite uses on the timestamp columns is never symmetric |
| Rfc3339.TextLessIsTransitive | crates/store/src/queue.rs:150-151 | that order is transitive |
| Rfc3339.TextLessIsTotal | crates/store/src/queue.rs:150-151 | two texts that neither precedes are equal |
| Rfc3339.DateOf | crates/store/src/queue.rs:143 | every day of years 0000-9999 has a valid Gregorian date whose day number is that day |
| Rfc3339.DayNumberOrder | crates/store/src/queue.rs:143 | calendar order of dates is the order of their day numbers |
| Rfc3339.MonthStarts | crates/store/src/queue.rs:143 | the months begin 0, 31, 59, 90, .. days into the year, one more from March on when the year is divisible by 4 and not by 100 unless by 400 |
| Rfc3339.DigitsAre | crates/store/src/queue.rs:143 | a number in w digits is its decimal digits, most significant first |
| Rfc3339.EncodeShape | crates/store/src/queue.rs:143 | a written timestamp is date, `T`, clock, fraction of 0, 3, 6 or 9 digits, `+00:00` |
| Rfc3339.TextOf | crates/store/src/queue.rs:143 | the text of a date, an hour, a minute, a second and a fraction is each of these numbers in its place and width, `YYYY-MM-DDTHH:MM:SS`, then the fraction and `+00:00` |
| Rfc3339.FractionIs | crates/store/src/queue.rs:167 | the fraction is empty for 0, else a dot and 3, 6 or 9 digits that read as the nanoseconds, and never more digits than that takes |
| Rfc3339.FractionIsGroups | crates/store/src/queue.rs:167 | the fraction is a dot and the groups of three digits with trailing zero groups dropped |
| Rfc3339.GroupTextOrder | crates/store/src/queue.rs:150-151 | fractions of different widths followed by `+00:00` still compare as numbers |
| Rfc3339.TextOrderIsTimeOrder | crates/store/src/queue.rs:145-152 | text comparison of two written timestamps is comparison of their instants, and equal texts mean equal instants |
| Rfc3339.ParseInvertsEncode | crates/store/src/queue.rs:582-591 | reading back a written timestamp gives the instant that was written, to the nanosecond |
| Rfc3339.Read | crates/store/src/queue.rs:582-591 | a text that was written reads back as its one instant |
| Storage.Database.Rollback | crates/store/src/queue.rs:223-227 | a rolled back transaction leaves every table as it was when it began |
| Events.Append | crates/store/src/events.rs:27-53 | an event is added at the end unless its id is taken; then nothing changes |
| Events.AppendAll | crates/server/src/workers/intake.rs:166-168 | all events go in, in order, exactly when none of their ids is taken or repeated |
| Items.Insert | crates/store/src/items.rs:82-144 | a row is added unless its id or its source pair is taken; the second case alone is `DuplicateSource` |
| Items.DuplicatesExactly | crates/store/migrations/002_item_schema_refactor.sql:61-63 | an item is refused exactly when some row has the same source instance and the same external id, both given |
| Items.InsertKeepsUnique | crates/store/migrations/002_item_schema_refactor.sql:61-63 | an accepted insert keeps source pairs unique and adds exactly its own pair; nulls never clash |
| Queue.DispatchKeyIsUnique | crates/store/src/queue.rs:149-152 | whichever tied row SQLite picks, its priority and enqueue time are the same |
| Queue.ClaimSets | crates/store/src/queue.rs:168-183 | a claim sets holder, claim time and expiry and changes no other column and no other row |
| Queue.ReadColumn | crates/store/src/queue.rs:504-508 | a null column stays absent and a written one reads as its instant |
| Queue.ReadRow | crates/store/src/queue.rs:489-511 | a well-formed row reads back with all its columns; any entry read names its own row |
| Queue.First | crates/store/src/queue.rs:145-152 | the selected row is among the candidates and no candidate precedes it |
| Queue.Sorted | crates/store/src/queue.rs:475 | every candidate appears once and none after one it precedes |
| Queue.Enqueue | crates/store/src/queue.rs:88-112 | a row with no claim is added, an existing row is left alone, a missing item is a foreign-key error |
| Queue.Dequeue | crates/store/src/queue.rs:136-194 | claims a dispatchable row for the worker until now plus lease, or finds that none is available |
| Queue.ClaimedEntry | crates/store/src/queue.rs:185-193 | the entry returned reads as the row just claimed |
| Queue.DequeueOne | crates/store/src/queue.rs:200-240 | the same in its own transaction: an error takes the claim back and no other table changes |
| Queue.RenewLease | crates/store/src/queue.rs:248-279 | only the recorded holder changes the expiry, expired or not; anyone else gets `ClaimMismatch` |
| Queue.Release | crates/store/src/queue.rs:284-312 | the recorded holder clears all three claim columns and nothing else |
| Queue.Complete | crates/store/src/queue.rs:316-343 | the recorded holder removes exactly that row |
| Queue.ForceClaim | crates/store/src/queue.rs:353-384 | claims an existing row whoever holds it; a missing row is an error |
| Queue.MoveItem | crates/store/src/queue.rs:390-434 | the recorded holder's row leaves one queue and is in the other, unclaimed, at priority 0 |
| Queue.ReleaseFrees | crates/store/src/queue.rs:281-293 | a released row has its claim columns cleared, is available at once and keeps its place in the order |
| Queue.MoveRelocates | crates/store/src/queue.rs:397-432 | a move leaves an unclaimed row of priority 0 in the other queue, or the one already there, and touches nothing else |
| Views.List | crates/store/src/queue.rs:462-513 | all rows of the queue whose item passes the filter, each once, in dispatch order, parsed; it fails only on an unreadable row |
| Views.Depth | crates/store/src/queue.rs:517-536 | the number of rows a dequeue at that instant could claim |
| Views.AvailabilityAgrees | crates/server/src/api/items.rs:287-289 | the handler's test on parsed instants is SQLite's test on texts |
| Views.NextItem | crates/server/src/api/items.rs:272-304 | over well-formed rows with their items (every reachable state, by `Pipeline.RunKeepsTables`) shows an entry a dequeue could claim, and none exactly when there is none |
| Views.NextAgreesWithDequeue | crates/server/src/api/items.rs:267-289 | the entry shown has the priority and enqueue time of the row a dequeue claims at that instant |
| Views.DepthCountsListing | crates/server/src/api/items.rs:313-322 | depth is the number of listed entries that pass the handler's test |
| QueueRuns.OpKeepsRowsOk | crates/store/src/queue.rs:168-183 | every operation keeps the three claim columns all set or all null and every time a written timestamp |
| QueueRuns.Perform | crates/store/src/queue.rs:88-434 | each queue operation run on the tables, whether it succeeds or errs, is its step in the runs below |
| QueueRuns.RunKeepsRowsOk | crates/store/src/queue.rs:168-183 | so do runs of any length |
| QueueRuns.ExpiryIsExact | crates/store/src/queue.rs:150 | a leased row is available again exactly when the clock has passed its expiry |
| QueueRuns.DequeueLeases | crates/store/src/queue.rs:167-183 | the row a dequeue returns is leased to its worker until now plus lease |
| QueueRuns.StepKeepsLease | crates/store/src/queue.rs:136-194 | no operation at or before the expiry hands the row out, and none but the holder's own or a force-claim ends the lease |
| QueueRuns.LeaseExcludes | crates/store/src/queue.rs:125-128 | over whole runs with a clock that does not run back, a leased row is not handed out until its expiry unless the holder gave it up or an operator took it |
| QueueRuns.DequeueExcludes | crates/store/src/queue.rs:125-194 | once a dequeue has handed a row out, no dequeue of any worker hands it out again at or before its expiry, with the same exceptions |
| QueueRuns.ExpiredLeaseIsRenewed | crates/store/src/queue.rs:244-279 | a lease that has run out, so that anyone could claim the row, is in force again once its recorded holder renews it |
| QueueRuns.DrainAvailable | crates/store/src/queue.rs:145-152 | while dequeuing, what is available is what was at the start less what was handed out |
| QueueRuns.TakenCount | crates/store/src/queue.rs:136-194 | n dequeues hand out n different rows, all available at the start |
| QueueRuns.DrainIsOrdered | crates/store/src/queue.rs:136-194 | dequeuing to empty returns each available row once, by priority and then age, and stops after exactly `depth` claims |
| QueueRuns.DrainIsByPriorityThenAge | crates/store/src/queue.rs:151-152 | in the order of a drain priorities never rise and, within one, enqueue instants never fall |
| IntakeLoop.TopicPrefixIs | crates/server/src/workers/intake_loop.rs:218-223 | the topic id is what stands before the first dot, and only a name without a dot has none |
| IntakeLoop.DispatchExactly | crates/server/src/workers/intake_loop.rs:183-249 | a call yields the topic's event exactly when it reaches a topic that answers, and halts exactly when it is reserved with JSON arguments |
| IntakeLoop.DispatchAll | crates/server/src/workers/intake_loop.rs:366-373 | in whatever order the calls complete, result i is that of call i, and every call that reaches a topic is executed |
| IntakeLoop.Record | crates/server/src/workers/intake_loop.rs:378-396 | one tool result per call, events of the successful activities in emission order, and the one halt if there is one |
| IntakeLoop.Batch | crates/server/src/workers/intake_loop.rs:324-396 | two or more halts reject the whole batch; otherwise it is dispatched and recorded |
| IntakeLoop.Turn | crates/server/src/workers/intake_loop.rs:283-413 | one turn either ends the loop with the outcome its reply calls for or extends transcript and events by its exchange |
| IntakeLoop.TranscriptGrows | crates/server/src/workers/intake_loop.rs:303-396 | that exchange is one assistant message with the reply's text and calls and then one result per call: the event's id and payload when a topic answered, the rejection when the batch had two halts, an error for every other call that is no halt |
| IntakeLoop.RunLoop | crates/server/src/workers/intake_loop.rs:253-421 | from the replies and topic answers alone (`LoopWorld.LoopIs`): the model is asked turn after turn until a reply stops the loop or `turn_budget` is spent, first with the prompt and then with all that each turn added, exactly the calls that reach a topic outside rejected batches are executed, and the outcome is what the last reply says, with the transcript and every answered event |
| IntakeLoop.LoopIsSo | crates/server/src/workers/intake_loop.rs:253-421 | the conclusion the state machines and workers use is that same outcome |
| IntakeLoop.LastTurnIsLeast | crates/server/src/workers/intake_loop.rs:283-413 | the turn it stops at is the first that ends it |
| IntakeLoop.TranscriptWellFormed | crates/server/src/workers/intake_loop.rs:303-396 | after any number of turns every assistant message is followed at once by one result per call, same ids, same order |
| IntakeLoop.RequestsWellFormed | crates/server/src/workers/intake_loop.rs:284-290 | so is every transcript the model is sent |
| IntakeLoop.OutcomeWellFormed | crates/server/src/workers/intake_loop.rs:292-420 | so is the transcript of every outcome, on all the ways out |
| IntakeLoop.AutoResolvedExactly | crates/server/src/workers/intake_loop.rs:199-207 | the loop resolves with a summary exactly when the first turn that ends it has one reserved call, that call is `auto_resolved`, its arguments are JSON, and they give that summary |
| IntakeLoop.DeferredByModelExactly | crates/server/src/workers/intake_loop.rs:208-216 | it defers for the model's own reason exactly when that one call is `defer_to_human` with JSON arguments giving that reason |
| IntakeLoop.ResolvesExactly | crates/server/src/workers/intake.rs:92-111 | what is finalized resolves the item exactly when the first reply that stops the loop has one halt with JSON arguments and it is `auto_resolved`; every other ending, a failed model call too, goes to the human |
| IntakeLoop.HandsOnExactly | crates/server/src/workers/intake.rs:92-111 | when a model call fails nothing the loop did is handed on; otherwise exactly the events topics answered in the turns asked are, by turn and emission |
| IntakeLoop.HaltConcludes | crates/server/src/workers/intake_loop.rs:398-413 | a turn that ends by its one halt gives that halt's outcome with everything up to and including that turn |
| IntakeLoop.RejectedBatchDoesNothing | crates/server/src/workers/intake_loop.rs:328-352 | a batch with several halts executes nothing, records nothing, ends nothing and answers every call with the rejection |
| IntakeLoop.OutcomeAudit | crates/server/src/workers/intake_loop.rs:281-420 | the events returned are those of every turn asked, whichever way the loop ended |
| IntakeLoop.AuditAt | crates/server/src/workers/intake_loop.rs:379-388 | every successful activity has its own event in the trail |
| IntakeLoop.AuditInEmissionOrder | crates/server/src/workers/intake_loop.rs:375-396 | the trail is ordered by turn and then by emission, not by completion |
| IntakeLoop.AuditFrom | crates/server/src/workers/intake_loop.rs:385-388 | nothing else is in the trail |
| Replay.ReplayConcat | crates/core/src/event.rs:1-4 | replaying a log in two parts is replaying it whole |
| Replay.ReplayOnlyAdvances | crates/core/src/event.rs:1-4 | replay never loses an item or moves one back, and one that changes nothing had no lifecycle event |
| Replay.OncePerItem | crates/server/src/workers/intake.rs:162-184 | a readable log has each item's creation once and at most one intake analysis, ack and review, and which of them it has tells the item's stage |
| Replay.LiveIsBalance | crates/server/src/workers/intake.rs:171-182 | live items are creations less confident intake analyses less reviews |
| Transactions.CreateItem | crates/server/src/api/items.rs:123-143 | event, item row and intake row together or nothing (`push_tx` is the same with another payload) |
| Transactions.PersistItem | crates/server/src/workers/ingest.rs:113-182 | creation event, item row, intake row and audit event together or nothing; `DuplicateSource` exactly for a taken source pair |
| Transactions.FinalizeOutcome | crates/server/src/workers/intake.rs:120-186 | commits exactly when the worker is still the recorded holder and the ids are new; otherwise every table is unchanged |
| Transactions.AckItem | crates/server/src/api/items.rs:228-265 | a human-queue item is acked and moved to outtake whoever holds it, or nothing changes |
| Transactions.FinalizeReview | crates/server/src/workers/review.rs:178-202 | the item is retired, the review logged and a suggestion created in the human queue together, exactly when the worker still holds it |
| Transactions.InvokeAction | crates/server/src/api/items.rs:179-203 | the action is logged; no table changes |
| Transactions.AuditReachesLog | crates/server/src/workers/intake.rs:162-169 | a committed finalize puts the loop's whole trail in the log, in order, right before the one analysis event |
| Transactions.PayloadsAre | crates/core/src/event.rs:1-4 | id, kind, actor and payload of the events the server writes, field by field |
| Transactions.CreateIs | crates/server/src/api/items.rs:123-143 | a creation adds its events, its item and one unclaimed row of priority 0 and nothing else |
| Transactions.IntakeIs | crates/server/src/workers/intake.rs:120-186 | a finalized intake appends the activity events and the analysis, and its row goes or is now an unclaimed one of priority 0 in the human queue; nothing else changes |
| Ingest.PersistBatch | crates/server/src/workers/ingest.rs:55-84 | each item of a batch commits or is dropped on its own; no failure stops the others |
| Ingest.BatchDedupes | crates/server/src/workers/ingest.rs:86-111 | in any order a batch leaves the old source pairs and its own, one row per pair, plus one row per item without a pair |
| Ingest.RetryAddsNothing | crates/server/src/workers/ingest.rs:90-94 | ingesting the same pairs again adds no row for them |
| IntakeWorker.ProcessNext | crates/server/src/workers/intake.rs:65-118 | an uninterrupted pass claims a dispatchable item, runs the loop on it and finalizes its outcome, or finds intake empty |
| IntakeWorker.PassIsTwoSteps | crates/server/src/workers/intake.rs:65-118 | such a pass is a claim step and a finalize step of the protocol |
| IntakeWorker.PassFinishes | crates/server/src/workers/intake.rs:92-117 | from a state where log and tables agree, with unused event ids and honest topics, the pass always commits its outcome, and log and tables still agree |
| IntakeWorker.PassResolvesExactly | crates/server/src/workers/intake.rs:92-182 | under the same conditions the item leaves every queue exactly when the first reply that stops the loop is a lone `auto_resolved` with JSON arguments, and is in the human queue alone otherwise |
| IntakeWorker.PassLogsExactly | crates/server/src/workers/intake.rs:120-169 | and the log gains one analysis without confidence when a model call failed, else the topics' answers of all turns asked, in order, and one analysis whose confidence is whether the model resolved the item |
| IntakeWorker.PassBlocked | crates/server/src/workers/intake.rs:112-117 | a pass that cannot finalize leaves its 30-second claim and nothing else |
| IntakeWorker.PassWithoutItem | crates/server/src/workers/intake.rs:71-90 | a pass whose row has no item gives its claim back |
| ReviewWorker.ProcessNext | crates/server/src/workers/review.rs:51-176 | an uninterrupted pass claims a dispatchable item, asks the model once and finalizes the review, or finds outtake empty |
| ReviewWorker.FreshReviewCommits | crates/server/src/workers/review.rs:178-202 | with unused ids the finalize of the holder always commits; a suggestion has no external id, so no item blocks it |
| ReviewWorker.PassFinishes | crates/server/src/workers/review.rs:116-176 | from a state where log and tables agree, with unused ids, the pass retires its item, and adds a suggestion for the human exactly when the answer is a JSON object whose field `suggest` is the boolean true |
| ReviewWorker.QuietReviewWrites | crates/server/src/workers/review.rs:116-166 | without a suggestion the pass adds one review event, with the model's text or the error, and only its own row goes |
| ReviewWorker.SuggestionLogs | crates/server/src/workers/review.rs:139-202 | with one, the review names the suggestion and a creation event names the item that triggered it |
| ReviewWorker.SuggestionStored | crates/server/src/workers/review.rs:178-235 | the suggestion item, column by column, and its unclaimed row in the human queue are added; no other item or row changes |
| ReviewWorker.PassBlocked | crates/server/src/workers/review.rs:168-176 | a pass that cannot finalize leaves its five-minute claim and nothing else |
| ReviewWorker.PassWithoutItem | crates/server/src/workers/review.rs:51-80 | a pass whose row has no item gives its claim back |
| Pipeline.NextAgrees | crates/core/src/event.rs:1-4 | every transaction keeps replayed log, item rows and queue rows in agreement |
| Pipeline.RunAgrees | crates/core/src/event.rs:1-4 | in every reachable state, folding the log gives exactly the item rows and each item's queue; claims play no part |
| Pipeline.FinalizedAtMostOnce | crates/server/src/workers/intake.rs:120-186 | in every interleaving of workers, expiries, crashes and acks each item has at most one analysis, ack and review, and one creation event per row |
| Pipeline.StaleWorkerNeverCommits | crates/server/src/workers/intake.rs:112-115 | a worker that is not the recorded holder, and has not claimed the row anew, changes nothing with a late finalize, whatever came in between |
| Pipeline.PairsAreDeduplicated | crates/server/src/workers/ingest.rs:119-124 | in every run of ingests, pushes, creations and retries a source pair has at most one item row, one creation event per item row, and at most one intake row |
| Pipeline.ItemIsInOnePlace | crates/server/src/workers/intake.rs:171-182 | an item's rows are its one queue while it is live and none once retired |
| Pipeline.RunOnlyAppends | crates/store/src/events.rs:27-53 | no run rewrites the log |
| Pipeline.StagesNeverGoBack | crates/server/src/workers/review.rs:178-202 | over any run no item is lost and none moves back |
| Pipeline.RowsAreConserved | crates/server/src/workers/intake.rs:171-182 | the number of queue rows is creations less confident intake analyses less reviews |
| Pipeline.RunKeepsTables | crates/store/migrations/002_item_schema_refactor.sql:61-63 | in every reachable state source pairs are unique, claim columns aligned and every queue row has its item |
| Pipeline.AckFinishesExactly | crates/server/src/api/items.rs:228-265 | where log and tables agree, an ack with an unused id commits exactly for an item waiting for the human, whoever holds its row, and leaves it unclaimed in outtake |
| Pipeline.IntakeAgreesExactly | crates/server/src/workers/intake.rs:162-168 | a finalize keeps log and tables in agreement exactly when no event a topic returned is a lifecycle event |
| Server.Perform | crates/server/src/api/items.rs:123-265 | each call of the store's methods, whether it commits or fails, is its step of the protocol |
| Server.Serve | crates/store/src/db.rs:35-66 | any calls on a fresh database are a run of the protocol, so with honest topics the log always replays to the items and queue rows in the tables |
| Agreement.ReplayedGains | crates/core/src/event.rs:1-4 | how far a log's events move items is how far the placement it replays to has come |
| Agreement.AgreementIsLevel | crates/core/src/event.rs:1-4 | where log and tables agree they are equally far |
| Agreement.NextGap | crates/server/src/workers/intake.rs:162-184 | every transaction takes log and tables equally far but for lifecycle events that topics returned, which only ever put the log ahead |
| Agreement.RunAgreesExactly | crates/core/src/event.rs:1-4 | in every run, whatever topics answer, log and tables agree exactly when no committed finalize carried a lifecycle event; once one has they never agree again |
| UntrustedTopic.LoopHandsOn | crates/server/src/workers/intake_loop.rs:385-388 | when the model calls one activity, its topic answers with any event and the model defers, the loop's outcome carries that event |
| UntrustedTopic.ForgedEventBreaksReplay | crates/server/src/workers/intake.rs:162-168 | from any state in agreement, finalizing that outcome keeps it exactly when the event is no lifecycle event |
| UntrustedTopic.ForgedRunParts | crates/server/src/workers/intake.rs:166-168 | a run from the empty database, created, claimed and finalized, in which one forged creation parts log and tables |
| UntrustedTopic.ForgedSettingParts | crates/server/src/workers/intake.rs:166-168 | such a run in which a returned setting event is logged and never stored, though no table write failed |
| TopicData.SetData | crates/server/src/topics/sink.rs:22-58 | the event first, then the table; without the event the table is untouched |
| TopicData.Upsert | crates/store/src/topic_data.rs:49-75 | the value of that one key is overwritten |
| TopicData.GetAll | crates/store/src/topic_data.rs:23-45 | the snapshot is exactly the topic's own keys with their stored values |
| TopicData.ReplayedWrite | crates/server/src/topics/sink.rs:29-40 | a setting's event replays as a write of its key |
| TopicData.SetDataAgreesExactly | crates/server/src/topics/sink.rs:29-57 | after one `set_data` the table agrees with the log at its key exactly when the table write succeeded or changed nothing; other keys are unaffected |
| SettingsRuns.WrittenByEvents | crates/server/src/topics/sink.rs:31-40 | the only transactions that write settings to the log are `set_data` and the finalize that appends what topics returned |
| SettingsRuns.NextAgreesExactly | crates/server/src/topics/sink.rs:29-57 | after a transaction that wrote to a key, log and table agree there exactly when the write was kept; after any other they agree exactly when they did before |
| SettingsRuns.SettingsAgreeExactly | crates/core/src/event.rs:3-4 | in every run log and table agree at a key exactly when the last committed write to that key was kept |
| SettingsRuns.TableIsReplayExactly | crates/core/src/event.rs:3-4 | the whole table is the replayed log exactly when that holds of every key |
| SettingsRuns.TableIsReplay | crates/server/src/topics/sink.rs:29-30 | when table writes succeed and topics return no setting events, the table is the replayed log in every state |
| SettingsRuns.FailedUpsertParts | crates/server/src/topics/sink.rs:51-57 | one setting whose table write fails is a run in which they differ |
| SettingsRuns.TableIsLastProjected | crates/store/src/topic_data.rs:57-63 | in every run the table has, for each key, the value of the last setting whose table write succeeded, and nothing where there was none |
| SettingsRuns.ProjectionIsLogged | crates/server/src/topics/sink.rs:29-50 | each stored setting has its event in the log |
| TopicProto.ParseInvertsErrorData | crates/topic-proto/src/error.rs:23-55 | structured error data reads back as the error it was made from |
| TopicProto.TopicErrorSurvives | crates/topic-proto/src/error.rs:63-72 | a topic error reaches the host's caller equal, whatever activity it was for |
| TopicProto.ErrorDataIsInjective | crates/topic-proto/src/error.rs:37-55 | different errors have different data |
| TopicProto.ErrorDataIs | crates/topic-proto/src/error.rs:37-55 | the wire form of each error, field by field |
| TopicProto.PayloadExactly | crates/topic-host/src/subprocess.rs:472-530 | a caller gets the result, the typed error when code and data carry one, and otherwise an `Execution` error with its activity and the sender's message |
| TopicSdk.Respond | crates/topic-sdk/src/runner.rs:135-148 | a response carries the id of its request |
| TopicSdk.AnswerSurvives | crates/topic-sdk/src/runner.rs:184-278 | the host's caller sees the topic's own value or error; bad params and unknown methods come back as `Execution` |
| TopicSdk.RunWithIo | crates/topic-sdk/src/runner.rs:80-122 | from the requests and the handler alone (`TopicSdk.OutputIs`): the settings written are those of every init, ingest and execute with good params read before the stop, in order; each request read is answered right after its own settings and all earlier output, with its value or the error due; nothing else is written |
| TopicSdk.OutputIsSo | crates/topic-sdk/src/runner.rs:80-122 | the output the other results use is that same output |
| TopicSdk.OneReplyPerRequest | crates/topic-sdk/src/runner.rs:80-122 | every request read before the loop stops is answered exactly once, in order |
| TopicHost.Subprocess.SendRequest | crates/topic-host/src/subprocess.rs:182-216 | draw, register, then send |
| TopicHost.Subprocess.HandleLine | crates/topic-host/src/subprocess.rs:364-448 | a response resolves the pending call with its id and no other; a notification goes to the sink; anything else does nothing |
| TopicHost.Subprocess.ReadLines | crates/topic-host/src/subprocess.rs:334-361 | every line is handled in order and then all pending calls are closed (`TopicHost.ReadIs`): each call that was pending holds the first response with its id or `ConnectionClosed`, the settings are in the sink in order, and nothing else changes |
| TopicHost.NextKeepsSound | crates/topic-host/src/subprocess.rs:182-216 | no step makes an id both pending and resolved, and answers always carry their call's id |
| TopicHost.RunIsSound | crates/topic-host/src/subprocess.rs:364-418 | that holds in every run against any remote |
| TopicHost.IdsAreCounted | crates/topic-host/src/subprocess.rs:182-190 | request ids are 0, 1, 2, .. in the order drawn, whatever else goes on |
| TopicHost.ReturnsAtMostOnce | crates/topic-host/src/subprocess.rs:387-418 | whatever the remote writes, a call's outcome never changes |
| TopicHost.PendingMeansWaiting | crates/topic-host/src/subprocess.rs:197-204 | a call is pending exactly when it was registered and nothing has settled it since |
| TopicHost.AnsweredByFirstOwnResponse | crates/topic-host/src/subprocess.rs:387-418 | a call is answered by r exactly when r is the first response with its id received after it registered; duplicates, unknown ids and garbage resolve nothing |
| TopicHost.LateCallHangs | crates/topic-host/src/subprocess.rs:355-360 | a call registered after the drain is resolved by no one unless its own send fails |
| TopicHost.DrainClosesAll | crates/topic-host/src/subprocess.rs:355-360 | the drain closes every call already sent |
| TopicHost.SendsFollowWriter | crates/topic-host/src/subprocess.rs:206-212 | a send fails only after the writer is gone, and none succeeds then |
| TopicChannel.TurnIsSteps | crates/topic-sdk/src/runner.rs:99-104 | one turn of the topic's loop is its settings one by one and then its reply |
| TopicChannel.EachCallInOnePlace | crates/topic-host/src/subprocess.rs:182-216 | in every run a pending call that was sent is in exactly one place: outbound channel, wire, the topic's hand, or on its way back |
| TopicChannel.ResponsesAreExpected | crates/topic-host/src/subprocess.rs:399-417 | no response ever finds its id unregistered |
| TopicChannel.QuietMeansAnswered | crates/topic-host/src/subprocess.rs:197-215 | with the pipes empty and nothing unsent no call is pending |
| TopicChannel.CallerGetsTopicsAnswer | crates/topic-host/src/subprocess.rs:472-530 | a resolved call has the topic's answer to that caller's own request, value for value or an equal `TopicError` |
| TopicChannel.EffectsPrecedeReplies | crates/topic-sdk/src/notifier.rs:29-49 | when a response reaches its caller the sink has finished every setting sent before it, in order |
| TopicChannel.RequestsStayInOrder | crates/topic-host/src/subprocess.rs:182-216 | in every run the topic reads the requests in the order sent, and those not yet read are on the wire and in the outbound channel, in order |
| TopicChannel.AnswersComeInOrder | crates/topic-sdk/src/runner.rs:80-122 | the i-th response the host reads answers the i-th request it sent |
| Counter.NextKeepsSafe | crates/topic-example/src/main.rs:117-136 | every step, crash or restart keeps what is stored, in the pipe and in the topic's counter consistent, unless an activity leaves the counter below the last tick answered |
| Counter.TicksStrictlyIncrease | crates/topic-example/src/main.rs:64-136 | so as long as no activity does, over any crashes and restarts at any point the ticks the host receives strictly increase, each already covered by the stored counter |
| Counter.ActivityIsSafeExactly | crates/topic-example/src/main.rs:138-169 | that condition is exact, whatever is in the pipe and whatever restarts came before: once all is read, the tick after an activity is new exactly when the activity met it |
| Counter.ResetRepeatsATick | crates/topic-example/src/main.rs:145-148 | a reset after the first tick makes the next ingest repeat it |
| Counter.AdjustUnderAnUnreadTick | crates/topic-example/src/main.rs:149-158 | with a tick still unread, leaving the counter at the last tick delivered repeats the unread one |
| CounterTopic.Hydrate | crates/topic-example/src/main.rs:64-78 | the counter resumes from the topic's own row of the settings table, or from 0 |
| CounterTopic.IngestIsATurn | crates/topic-example/src/main.rs:117-136 | one ingest of the example is one turn of the topic loop: the counter setting, then the tick |
| CounterTopic.ExecuteWrites | crates/topic-example/src/main.rs:138-182 | one execute writes the counter's new value as a setting and then answers with its event |
| CounterTopic.ReadingIsSetData | crates/server/src/topics/sink.rs:22-58 | the host reading a setting and writing the table is the sink's `set_data` |
| CounterTopic.StepRefines | crates/topic-sdk/src/runner.rs:80-122 | every step of topic loop, pipe, sink, tables and host is one of the counter's or changes nothing there |
| CounterTopic.TicksStrictlyIncrease | crates/topic-example/src/main.rs:64-136 | so under the same condition, from any tables and over any crashes of topic or server, the ticks in the responses received strictly increase, and the next subprocess resumes from at least the last |
| SqlSplit.SplitSqlStatements | crates/store/src/db.rs:74-127 | for every script (`SqlSplit.SplitIs`): its lines with content are whole statements in order and then lines with no statement at their start, and the output is what is left of each statement without outer white space and trailing semicolons and then of the rest without outer white space, empty texts dropped |
| SqlSplit.CutIsUnique | crates/store/src/db.rs:79-118 | every kept line lands in exactly one chunk in order, and there is only one way to divide them into whole statements |
| SqlSplit.DividesExactly | crates/store/src/db.rs:79-118 | to divide a script into plain statements, triggers and a rest without one is to cut it where the splitter does, and nowhere else |
| SqlSplit.SplitExactly | crates/store/src/db.rs:74-127 | there is only one output that division can give, the splitter's |
| SqlSplit.BeginLineExactly | crates/store/src/db.rs:80-92 | a line opens a trigger exactly when it is some text, five characters that are B, E, G, I, N in upper case, and white space |
| SqlSplit.EndLineExactly | crates/store/src/db.rs:98-99 | a line closes one exactly when it is white space, three characters that are E, N, D in upper case, and some text |
| SqlSplit.SemicolonLineExactly | crates/store/src/db.rs:111 | a line closes a plain statement exactly when it is some text, a semicolon and white space |
| SqlSplit.ContentLineExactly | crates/store/src/db.rs:80-85 | a line is kept exactly when some character is not white space and the text from the first such on does not begin with `--` |
| SqlSplit.StatementsExactly | crates/store/src/db.rs:89-117 | a whole statement is either plain, closed by its first line ending in a semicolon, or a trigger, closed by the first line starting with END from its first line ending in BEGIN on, these lines given by their characters |
| SqlSplit.ChunkTextIsItsLines | crates/store/src/db.rs:101-116 | the text of a closed chunk is its lines but for outer white space and trailing semicolons |
| SqlSplit.RestTextIsItsLines | crates/store/src/db.rs:120-124 | the text of the unfinished rest is its lines but for outer white space |
| SqlSplit.RestIsOutput | crates/store/src/db.rs:120-124 | a rest with any kept line in it is output |
| SqlSplit.SplitInvertsPrint | crates/store/src/db.rs:71-127 | splitting printed statements, plain ones and triggers given by their lines, with any blank or comment lines put in, gives them back |
| SqlSplit.InterleavedLines | crates/store/src/db.rs:80-85 | the lines the splitter looks at are exactly those with content, in order, whatever blank and comment lines stand between them |

## Left out

- Rfc3339.Read: instants are those of years 0000-9999 and reading covers the texts the server writes (`T`,
  `+00:00`, seconds below 60); other texts RFC 3339 allows never reach the queue table.
- Queue.Dequeue: `now + lease` must stay in that range; beyond it the text would grow a sign and a digit.
- Transactions.PersistItem: any item may be passed; the worker always passes the topic's name as its source.
- Transactions.FinalizeOutcome: activity events whose effects happened are lost when the finalize fails, as in the code.
- Ingest.BatchDedupes: new ids are assumed fresh, as random UUIDs are; with a clash the transaction fails and changes nothing.
- Pipeline.RunAgrees: topics are assumed to answer with no lifecycle event, as in the other results over `Pipeline.Run`; `Agreement.RunAgreesExactly` says what holds without that.
- TopicHost.Subprocess.HandleLine: a line is already a response, a usable setting or garbage; JSON text is not modelled.
- TopicSdk.AnswerSurvives: payloads are JSON values that read back as written; a payload of the wrong shape becoming `Execution` is left out.
- TopicChannel.EachCallInOnePlace: the connection stays up and no shutdown is sent; the host never sends one.
- CounterTopic.TicksStrictlyIncrease: storage works, event ids are unused, one subprocess lives at a time, and the 64-bit counter does not overflow; the init handshake is over when a subprocess starts here.
- Opening a database file that already has rows; runs start from an empty one.
- SqlSplit.SplitSqlStatements: input is the script's lines; cutting text into lines is left out.
- SQLite's own machinery: connections, WAL, `BEGIN IMMEDIATE`, failing commits. Transactions are atomic and serial; primary keys, the item foreign key and UNIQUE with distinct nulls are kept.
- Item columns and event payload fields that no modelled code reads: delegate, capabilities, row timestamps, locality, model name, wording of reasons.
- The tool surface offered to the model, since dispatch does not consult it; prompt text.
- The init handshake's identity check, process spawning and killing, writer errors inside the topic.
- `run_migrations`, `urgent_enqueue` and `move_item_one`, which only wrap what is modelled.
- Outbound delivery, HTTP, authentication, configuration, the clients, full-text search.
- Progress: a head item that can never be read is claimed and released for ever, and suggestions may beget suggestions, so queues are not claimed to drain.
