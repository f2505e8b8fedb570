# Beacon: model and proofs

Beacon moves operational events from agents to a server and from there to people. An
agent keeps events in a durable spool and sends them over a network that may lose
requests and answers; the server stores each event, keeps one alert record for each
fingerprint, and queues notification jobs that a worker sends, with retries.

This project models that pipeline in Dafny and proves what it promises. Code that
changes state step by step is modelled as methods and classes, each tied by its
`ensures` to a function of the old state; the theorems are lemmas about these functions,
about every run of the step machines built from them, and about reference definitions
that do not follow the code.

| files | contents |
|---|---|
| `Text`, `Json`, `Timestamps`, `Arithmetic` | UTF-8 lengths, byte order, JSON escaping, printed times |
| `Model` | events, alerts, validation and the size of an encoded event |
| `Policy`, `Templates`, `Rendering` | routing, the two template scanners, messages |
| `AlertHistory`, `EventLog` | the alert and the jobs that a log of events determines |
| `Queue`, `QueueRuns` | job rows, all runs of the queue |
| `Spacing`, `Schedules`, `Deliveries` | retry timing and repeated deliveries over whole runs |
| `Tables`, `EventStore` | the transaction that accepts an event; the store as a class |
| `Dispatcher`, `Passes` | one pass of the notification worker; runs made of passes |
| `Spool`, `Agent` | spool files under crashes; delivery and draining |
| `Protocol` | agents, network, server and workers together |
| `Enrollment` | one-time codes with concurrent requests |

Runs are sequences of actions applied to a total step function: an action that is not
possible in a state changes nothing, so a statement over all sequences covers every
interleaving. The outcomes of I/O (a database failure, a lost message, a refused file
operation, the answer of a channel) are parameters or actions, and so are the clock,
fresh identifiers and tokens.

Where the documentation and the code differ, the model follows the code:

- `docs/protocol.md:102-105` speaks of one job for each accepted event and channel. A
  firing event on an alert that is already firing makes no job (`src/server.rs:317`); an
  informational event on a firing alert does, and its message uses the firing format,
  because the format follows the alert (`src/notification.rs:346-366`).
- `docs/protocol.md:88-89` speaks of incrementing the count. A firing event that reopens
  an alert sets it back to 1 (`src/server.rs:553-559`), and that is what makes
  `event_count == 1` the right test.
- `last_seen` is the time of the last event to arrive, not the latest time.
- A drain sends events in the order of their file names, which are event ids.
- A job whose worker dies during its last attempt stays `in_flight` for ever, because
  only rows with attempts left are claimed (`src/server.rs:377`).

Properties that hold only under a condition are stated with it:

- `Timestamps.TextOrderNeedsFourDigitYear`: the database compares printed times. That
  is right exactly when the scheduled time is before year 10000; a later one counts as
  reached, and the queue model does the same (`Queue.Reached`).
- `Queue.RetryTimeExact`: the base delay is not limited by the code. The lemma gives the
  exact conditions under which the retry time is the intended one, lies in the past, or
  makes the worker panic, by the limits of the time library the repository uses (years
  -262143 to 262142, durations of i64::MAX milliseconds). A panic is modelled as the end of
  the worker before its update. `Queue.HugeDelays` gives an input for each case.
- `Spacing.SpacingExact`: what breaks the distance of attempts is a failure recorded after
  its job has been claimed again, with a time that is too early for the later claim. Every
  run without such a record is spaced, and after such a record some claims break it; so
  for recording in order, or within five minutes, or by one worker, distance is proved for
  all runs. `Spacing.TwoWorkersBreakSpacing` is a concrete run.
- `Deliveries.RepeatsExact`: a job may be delivered again after a crash that loses the
  record of a delivery, if the job has attempts left, and only then. On the last attempt
  such a crash is harmless: the job is never claimed again. That is for workers of which no
  two are at work on one job, as with one worker (`Deliveries.OneWorkerIsAlone`) or with
  workers that finish within five minutes (`Deliveries.PunctualIsAlone`);
  `Deliveries.SharedJobRepeats` shows what happens otherwise.
- `Enrollment.RollbackBlocks`: a rollback after the credential file was written leaves the
  file behind, and the code cannot be used until the file is removed
  (`Enrollment.BlockedIff`, `Enrollment.RemovalUnblocks`).
- `Spool.CrashBlocksRetry`: a crash between creating the temporary file and renaming it
  leaves that file, after which that event can never be queued again;
  `Spool.EnqueueSucceedsIff` is the exact condition.

## Model

| member | source | states |
|---|---|---|
| Protocol.ExactlyOnceEffect | src/agent.rs:172-193 | For any number of agents and any interleaving of enqueues, requests, lost requests and answers, retries, agent and server crashes and notification work: an event that has left its spool is in the log exactly once, no id is committed twice, and the three tables equal those from accepting every committed event once in commit order |
| Protocol.SystemInvAlways | src/agent.rs:60-77 | In every reachable state of the whole pipeline every queued event is in its spool or committed, answers under way acknowledge committed events only, the tables agree with the log, and the queue invariant holds |
| Protocol.InvStep | src/agent.rs:60-77 | Each single step of an agent, the network, the server or a worker keeps that invariant |
| Protocol.RemoveLosesNothing | src/agent.rs:70-75 | Removing the acknowledged event from the spool loses no event, whichever file names the other queued events have |
| Protocol.AcceptIsEnqueue | src/server.rs:306-328 | To the queue a commit is nothing but the addition of new pending rows behind the others |
| Protocol.QueueOfSystem | src/server.rs:280-431 | The queue of every run of the whole pipeline is the result of a run of the queue machine |
| Protocol.NotificationsOfSystem | src/server.rs:362-431 | So in every state of the pipeline sends are bounded by attempts and these by the maximum, sent jobs were delivered, and a job never claimed has waited only for jobs before it, at most the maximal attempts for each |
| Protocol.DeliveryWithoutFaults | src/agent.rs:60-77 | From any reachable state a fault-free delivery commits the first listed event and takes exactly its file out of the spool |
| Tables.AcceptFollowsLog | src/server.rs:280-332 | What accepting does, told from the log alone: a valid new event is committed with the alert described from its whole history and its jobs appended; a repeated event is answered as a duplicate, another payload under a known id is a conflict, and both leave all tables alone |
| Tables.AcceptIsIdempotent | src/server.rs:289-303 | An event accepted once is answered as a duplicate for ever and changes nothing |
| Tables.AnnounceInsertsAll | src/server.rs:506-530 | For a new event the insert that ignores duplicates ignores none: one row for each channel is added |
| Tables.AcceptAddsRows | src/server.rs:306-331 | The rows that accepting adds, column by column |
| Tables.CountTestsNotifies | src/server.rs:317-319 | The test on state and `event_count` holds exactly for events that do not fire or that find the alert not firing |
| Tables.AcceptAllConsistent | src/server.rs:280-332 | Accepting a list of distinct valid events one by one gives tables that agree with the list as a log |
| Tables.ConsistentUnique | src/server.rs:280-332 | A log determines the events, the alerts and the fixed columns of the jobs |
| Tables.TablesConfluence | src/server.rs:280-332 | Two servers that committed the events of each fingerprint in the same order hold the same events, the same alerts and the same jobs, however the fingerprints were interleaved |
| EventStore.ServerEventStore.Accept | src/server.rs:280-332 | The transaction commits all of the specified change or, on a database failure, none; the store stays consistent with its log of committed events and a success means the event is in it. A newly accepted event adds exactly one pending row for each of its channels, in order, with the message rendered for the alert in the answer, or none for a firing event of a firing alert |
| EventStore.TransitionAlert | src/server.rs:532-598 | The field-by-field updates save the record that the transition rule gives |
| EventStore.EnqueueNotifications | src/server.rs:506-530 | The loop over channels inserts one row for each key not taken yet: every new row is pending, with the id, fingerprint and message of the event and one of the channels, and afterwards each channel has its row |
| EventStore.AcceptInTransaction | src/server.rs:284-331 | The statements of the transaction compute the specified tables and answer, in every branch |
| EventStore.ServerEventStore.ClaimNotification | src/server.rs:362-402 | Among the rows with attempts left that are pending, failed for now and due, or in flight for five minutes, the one with the lowest id, and no other, becomes in flight with one more attempt and the time of the claim, and is returned as it is then; without such a row nothing changes |
| EventStore.ServerEventStore.CompleteNotification | src/server.rs:404-413 | Only a row in flight becomes sent, at the given time and without error or claim; no other row changes |
| EventStore.ServerEventStore.FailNotification | src/server.rs:415-431 | Only a row in flight becomes failed, with the given error and retryability and without claim, due again at the retry time if it may be retried and at once otherwise; no other row changes, and a retry time that cannot be computed is a panic before the update |
| AlertHistory.TransitionDescribes | src/server.rs:532-598 | One transition turns the description of a history into the description of the history with one more event, for every state of the alert and every event |
| AlertHistory.AlertIsDescription | src/server.rs:532-614 | The record kept event by event is the one described from the whole history: firing iff the last event that is not informational fires, count and start time those of the current episode, resolved time set iff resolved |
| AlertHistory.CountOneIffOpens | src/server.rs:535-561 | A firing event leaves count 1 exactly when it found the alert not firing |
| AlertHistory.ExactlyOneOpener | src/server.rs:317-319 | Every firing event belongs to exactly one episode, with exactly one opening event |
| EventLog.JobTableExact | src/server.rs:306-328 | A job exists exactly for a committed event that does not fire, or finds its alert not firing, and one of its channels; its columns are the id and fingerprint of the event, the channel, and the event rendered with the alert that its whole history describes |
| EventLog.JobKeysDistinct | src/server.rs:482 | No two jobs share an event and a channel, so the unique key is never hit |
| EventLog.JobsForExact | src/server.rs:506-530 | One event makes as many jobs as it has channels if it is announced, and none otherwise; each job has the columns just named |
| EventLog.JobsOfFingerprint | src/server.rs:306-328 | The jobs of a fingerprint depend on its own events alone |
| EventLog.CommitOrderConfluence | src/server.rs:306-328 | Logs that agree on each fingerprint give the same alerts and the same multiset of jobs |
| Policy.ChannelsFor | src/policy.rs:53-65 | The nested loops compute the first occurrences among the channels named by enabled matching rules |
| Policy.ChannelsExact | src/policy.rs:53-90 | A channel is chosen iff some enabled rule names it whose type, source, host, state and severity are absent or equal to those of the event, and at most once |
| Policy.DistinctKeepsOrder | src/policy.rs:53-65 | Chosen channels come in the order of their first mention in the catalog |
| Policy.AppendedRulesExtend | src/policy.rs:53-65 | Rules appended to the catalog only append channels |
| Queue.RetryTimeExact | src/notification.rs:472-476 | For every clock time, attempt count and base delay: the retry time is the intended one iff that is a date of the time library; it lies in the past iff the saturated product, cast to a signed number, leads to an earlier date; it panics in exactly the remaining cases |
| Queue.DelayTakesEffect | src/server.rs:415-431 | A temporary failure leaves a failed row that has to wait iff the delay is positive and ends before year 10000; otherwise the row is due at once or the worker panics |
| Queue.HugeDelays | src/notification.rs:475 | A base delay of 2^64 - 1 seconds is due one second before the failure; 10^13, 10^16 and 2^63 seconds panic |
| Queue.RetryTimeInRange | src/notification.rs:472-476 | With the base delay in range, the retry comes after at least that delay and before year 10000 |
| Queue.EligibleIsWhereClause | src/server.rs:370-383 | On printed dates the condition for a claim is the WHERE clause of the query: text comparison with the clock and with five minutes before it |
| Queue.EligibleInNumbers | src/server.rs:370-383 | The same in numbers of nanoseconds |
| QueueRuns.QueueSafety | src/server.rs:362-431 | In every state of every run by any workers with crashes: attempts stay within the maximum and count the claims, a claim time is set iff in flight, a sent time iff sent, and never-claimed rows are the last ones |
| QueueRuns.SendsBounded | src/notification.rs:296-343 | The sends of a job are at most its attempts, these at most the maximum, and a job marked sent was delivered |
| QueueRuns.SettledForever | src/server.rs:404-431 | Sent and permanently failed rows never change again |
| QueueRuns.DeadIsNeverClaimed | src/server.rs:372-395 | A settled job, or one out of attempts, is never claimed again |
| QueueRuns.NotStranded | src/server.rs:372-383 | In every reachable state a job with attempts left that is not settled is claimable from a known time on and not before |
| QueueRuns.StarvationBounded | src/server.rs:372-395 | While a job was never claimed, all claims so far went to lower ids, at most the maximal attempts for each of them |
| QueueRuns.PendingIsServed | src/server.rs:372-395 | With a pending job in the table an idle worker's claim takes a job, and none behind it |
| QueueRuns.ClaimsOnFixedJobs | src/server.rs:372-395 | Without new jobs only as many claims remain as there are attempts left |
| Deliveries.RepeatsExact | src/notification.rs:296-343 | Exact condition, for any number of workers that never claim a job another one is at work on: no state of a run can lead to a second delivery of any job iff every crash in it is harmless, that is, loses no unrecorded delivery of a job that has attempts left |
| Deliveries.DeliveredAtMostOnce | src/notification.rs:296-343 | So in such runs no job is delivered twice; when no worker is at work on it, a job marked sent has been delivered, and a delivered one is marked sent or out of attempts |
| Deliveries.DeliveredIffSent | src/notification.rs:318-330 | If no crash loses the record of a delivery, a job at rest has been delivered iff it is marked sent |
| Deliveries.PunctualDeliverOnce | src/server.rs:372-383 | Any number of workers of which none is five minutes into a try when another job is claimed: they deliver no job twice, if crashes are harmless |
| Deliveries.SharedJobRepeats | src/server.rs:372-383 | Two workers about to send the same job deliver it twice, without any crash |
| Deliveries.LostRecordRepeats | src/server.rs:372-383 | After a crash that loses an unrecorded delivery while an attempt is left, some continuation with harmless crashes delivers the job again |
| Spacing.SpacingExact | src/server.rs:415-431 | Exact condition for any number of workers: from every state of a run all further claims stay spaced iff no record of the run sets a row to a time that is too early for its last claim or beyond year 9999 |
| Spacing.CurrentRecordsSpaceAttempts | src/server.rs:362-431 | With any number of workers and crashes anywhere, if every try is recorded while it is the last claim of its job, consecutive claims of a job are at least the shorter of five minutes and its backoff apart |
| Spacing.TimelyRecordsSpaceAttempts | src/server.rs:362-431 | The same for workers that record every try within five minutes of its claim |
| Spacing.AttemptSpacing | src/notification.rs:296-343 | The same for one worker, however late it records, with crashes anywhere |
| Spacing.RunIsSpaced | src/notification.rs:296-343 | After every run of one worker all claims keep their distance |
| Spacing.RecordSafeIff | src/server.rs:415-431 | One record keeps every row safe from early claims iff the guard on its next time holds |
| Schedules.Schedule | src/notification.rs:472-476 | In any run in which tries are recorded in order: if every try of a job fails for now and it is claimed again exactly when due, its m-th claim comes base*(2^(m-1)-1) seconds after the first for m up to 12 and base*(2047+1024*(m-12)) beyond |
| Schedules.ScheduleIsRealised | src/server.rs:362-431 | For every number of attempts there is such a run, with its claims at exactly those times |
| Spacing.TwoWorkersBreakSpacing | src/notification.rs:296-343 | A run of two workers in which a job is claimed twice without any distance |
| Dispatcher.NotificationDispatcher.DeliverDue | src/notification.rs:296-343 | One pass is a run of the queue machine by one worker: its claims and their outcomes are those of its rounds; an Ok result counts the rows that became sent and leaves no claimed row in flight, and each claimed job is as its last send came out: sent, failed for now after a temporary or unclassified error, failed for good after a permanent one or without its channel, with the error recorded; it stops early only when nothing is due, on a database error, or on a panic over the next time, which delays in range rule out; with a positive delay the claimed ids increase although events arrive meanwhile; and from any reachable state, if nothing goes wrong and the limit exceeds the attempts left, every job that is due gets sent and every other stays as it was |
| Dispatcher.NotificationDispatcher.New | src/notification.rs:278-294 | A dispatcher needs a channel and an attempt |
| Dispatcher.NotDueAgain | src/notification.rs:472-476 | With a positive delay a job whose try has been recorded is not due again at the time of the pass |
| Passes.PassesKeepSpacing | src/server.rs:829-851 | Over any number of passes of the one worker thread, each at its own time and with any failures, all claims of a job keep the distance of the spacing theorem |
| Passes.PassesDeliverOnce | src/server.rs:829-851 | Over any number of passes, whatever the retry delay, no state can lead to a second delivery iff no crash loses the record of a delivery of a job with attempts left |
| Passes.OrderlyPassesDeliverOnce | src/server.rs:829-851 | After passes that end without an error each job has been delivered once if it is marked sent and never otherwise |
| Passes.PassSendsAll | src/notification.rs:296-343 | From any reachable state, a pass whose sends all succeed and that ends because nothing is due has sent every job whose due time had come, and left every other job as it was |
| Timestamps.TextOrderIsTimeOrder | src/server.rs:370-383 | For times in years 0 to 9999 printed with 0, 3, 6 or 9 fraction digits, byte order of the texts is order of the times (section 5.1 of RFC 3339, for differing fraction lengths) |
| Timestamps.TextComparesTimes | src/server.rs:418-422 | For dates of the calendar, text comparison is comparison of the elapsed nanoseconds that the queue model uses |
| Timestamps.TextOrderNeedsFourDigitYear | src/notification.rs:475 | A later scheduled time compares as later iff its year has four digits |
| Timestamps.EndOfTime | src/notification.rs:475 | Every date of the time library, years -262143 to 262142, lies between the limits that the queue model uses for the panics of date arithmetic |
| Timestamps.TextAtMost | src/server.rs:376-383 | For any printed date, also with a signed year, and a clock in years 0 to 9999, the database takes the date as reached iff it is at or before now or beyond year 9999, which is the comparison of the queue model |
| Timestamps.FractionOrder | src/server.rs:370 | Fractions of different printed lengths, each followed by the offset, compare as their values |
| Timestamps.PrintLayout | src/server.rs:370 | Each field of a printed time reads back at its place, and the fraction and the offset follow |
| Timestamps.FractionIs | src/server.rs:370 | The fraction has as many groups of three digits as it needs and reads back as the nanoseconds |
| Timestamps.KnownMoment | src/notification.rs:475 | A date in 2000 lies the right number of nanoseconds after year 0, by its Unix time |
| Templates.ValidateTemplate | src/notification.rs:150-173 | The scan accepts exactly the texts of 1 to 4096 bytes that have a well-formed split, and reports the first reason otherwise |
| Templates.SplitUnique | src/notification.rs:150-173 | A text has at most one well-formed split |
| Templates.SplitComplete | src/notification.rs:150-173 | Every well-formed split is the one a left-to-right scan finds |
| Templates.SplitSound | src/notification.rs:150-173 | What the scan finds is a well-formed split of the text it was given |
| Templates.SinglePlaceholder | src/notification.rs:160-165 | Between braces exactly the eight known names are accepted |
| Templates.RenderTemplate | src/notification.rs:411-429 | The loop renders any text, also with unknown or unclosed placeholders, as the recursive rendering does |
| Templates.RenderFollowsSplit | src/notification.rs:411-429 | On an accepted template rendering is the same split with the values put in: no fallback, and no expansion of braces inside values |
| Rendering.MessageIsFilledFormat | src/notification.rs:346-409 | With valid templates every message is the split of the format for the alert's status, filled in |
| Rendering.Validate | src/notification.rs:109-148 | The checks on message templates accept exactly the valid ones: three accepted formats, at most 256 types, and the limits on titles, texts and fields |
| Rendering.OwnFormatOnly | src/notification.rs:347-371 | Of the three formats only that of the status of the alert matters |
| Rendering.FixedValues | src/notification.rs:347-371 | What the icon, status and severity placeholders show, by status and severity |
| Rendering.HostValue | src/notification.rs:431-440 | What the host placeholder shows: five labels, and one for all other hosts |
| Rendering.ConfiguredValues | src/notification.rs:372-409 | What title, detail, action and fields show for a configured type: its texts for the status, or the standard text where one is empty |
| Rendering.UnconfiguredValues | src/notification.rs:347-409 | What they show otherwise |
| Rendering.FieldLineIs | src/notification.rs:450-470 | The line of a field: caption and at most 256 characters of the string, number or boolean, without control characters |
| Rendering.NoFieldLine | src/notification.rs:450-470 | A missing fact, a null, a list or a map has no line |
| Rendering.LinesJoined | src/notification.rs:450-470 | The lines come in the order of the fields, with a line break between them |
| Rendering.WithoutControlsIs | src/notification.rs:463-464 | Control characters, codes 0 to 31 and 127 to 159, are dropped and all others kept in order |
| Rendering.MessageShowsOnlyMapped | src/notification.rs:346-470 | Events that agree on type, host label and mapped facts give the same message: no other fact, id, source or fingerprint can influence it |
| Rendering.RenderedPayloadBound | src/notification.rs:411-470 | With valid templates a message has at most 9,461,248 bytes |
| Rendering.FieldsBound | src/notification.rs:450-470 | The value of the fields placeholder has at most 18,479 bytes |
| Rendering.FillGrowth | src/notification.rs:411-429 | Filling in a well-formed template multiplies its bytes by at most 18479/8 |
| Model.ValidEventFitsBody | src/model.rs:151-174 | Every event that passes validation encodes to less than the server's body limit of 256 * 1024 bytes (set in src/server.rs:859) |
| Model.ValidExact | src/model.rs:150-184 | Which events are valid: schema version 1, a UUID and a timestamp, no blank field, and each limit in bytes |
| Model.ReasonIsFirstDefect | src/model.rs:150-184 | The reason for a refusal is the first defect in a fixed order |
| Model.EventMembers | src/model.rs:121-133 | The members of an encoded event, by name and in order |
| Model.DecimalIsValue | src/model.rs:123 | A printed number reads back as itself, without leading zeros |
| Model.FactsBound | src/model.rs:164-172 | Up to 32 checked facts encode to at most 143,490 bytes |
| Json.EscapeGrowth | src/agent.rs:195-202 | String escaping grows a text at most six times (section 7 of RFC 8259) |
| Json.UnescapeEscape | src/agent.rs:195-202 | Reading an escaped string back gives the string (section 7 of RFC 8259) |
| Json.EscapeLengths | src/agent.rs:195-202 | Which characters are escaped in two bytes, in six, and not at all |
| Spool.EnqueueAtomic | src/spool.rs:50-70 | Wherever a crash stops `enqueue`, the listed events are as before or have the whole event added; success means it was added |
| Spool.EnqueueSucceedsIff | src/spool.rs:50-63 | Without a crash `enqueue` succeeds iff the event is valid, not queued and has no temporary file |
| Spool.CrashBlocksRetry | src/spool.rs:50-70 | After a crash before the first step the event can be queued; after the rename it is queued already; in between it is not queued and no later call can queue it |
| Spool.Spool.Enqueue | src/spool.rs:50-70 | Create, write, sync and rename give the specified directory after any number of steps |
| Spool.Spool.List | src/spool.rs:72-89 | The events of all listed files in the byte order of their names, or an error iff some listed file is incomplete or invalid |
| Spool.ListingUnique | src/spool.rs:77 | There is only one such order, so a listing is determined by the directory |
| Spool.NamesAre | src/spool.rs:52-76 | The file names of an event, and which names are listed |
| Spool.Spool.Remove | src/spool.rs:91-96 | Exactly the file of the event is removed |
| Agent.SubmitEvent | src/agent.rs:195-209 | An answer means that the server holds the event; a lost answer may still have committed it |
| Agent.DeliverWithRetry | src/agent.rs:172-193 | Success iff the server takes the event and some attempt is answered; the log grows by the event iff its id was new and some attempt was processed |
| Agent.Drain | src/agent.rs:40-78 | Removes exactly a prefix of the listing: up to the limit on success, else up to the first event that was not delivered or not removed; every removed event was committed, and nothing but listed events was |
| Enrollment.EnrollmentSingleUse | src/server.rs:225-278 | Over all runs with concurrent requests, crashes, rollbacks and removed files: a code is marked consumed iff exactly one request consumed it, for the name of the code and before its expiry; the token of that request was written for that very code, differs from every other, and is the installed credential until that file is removed |
| Enrollment.InvAlways | src/server.rs:225-278 | The invariant behind it, in every reachable state |
| Enrollment.BlockedIff | src/server.rs:235-238 | In every reachable state a name is refused because of its credential file iff some request, successful or not, installed a credential under it that has not been removed |
| Enrollment.RollbackBlocks | src/server.rs:235-277 | A rollback after the credential was written blocks its code: until the file is removed, the code is not consumed by any request, later or already under way |
| Enrollment.RemovalUnblocks | src/server.rs:225-278 | Once the file is removed, an undisturbed request consumes the code if it has not expired |
| Enrollment.AloneIsSequential | src/server.rs:225-278 | An undisturbed request of the step machine succeeds exactly when the sequential code does, with the same effect |
| Enrollment.EnrollmentDesk.ConsumeEnrollment | src/server.rs:225-278 | Every refusal in the order of the code; a failed commit leaves the credential file but not a consumed code |
| Enrollment.NamesAre | src/server.rs:889-900 | Which agent names are valid, by character codes |

## Left out

- HTTP, TLS, authorization and Telegram: a request or a send is an abstract call that may succeed, fail, or succeed with its answer lost.
- SQLite: transactions are atomic and serial, keys are unique and row ids increase (an id is the row's position). Schema creation and migration are not modelled.
- Parsing of UUIDs and RFC 3339 times: parameters of validation, over which everything is proved. Equality of stored payloads is equality of events.
- Hashing, random identifiers, token comparison and file permissions: hashes are taken as injective, codes as already trimmed, and new identifiers as unused.
- `list_alerts`, enum conversions, limits of the policy catalog, configuration loading, command line and installers: they would only add easy members.
- Widths of `event_count`, ids and attempts; the model counts without bound.
- Clock times outside years 0 to 9999, and leap seconds.
- Spacing.CurrentRecordsSpaceAttempts: claims at times from which 1024 base delays end before year 10000, and so TimelyRecordsSpaceAttempts and AttemptSpacing; Spacing.SpacingExact has no such limit.
- Schedules.Schedule: the same limit on times.
- Agent.Drain: taking the lock and building the client are one outcome that may fail; the waits between attempts do not appear. It is stated for spools that `enqueue` has made; a foreign file in the directory can only be seen by Spool.Spool.List.
- Protocol.ExactlyOnceEffect: an enqueue is one step there (its crash points are in Spool.EnqueueAtomic), and the lock is the rule that an agent enqueues only between drains.
- Spool.EnqueueAtomic: a rename is durable once made; loss of a directory entry in a power failure is not modelled.
- Rendering.Validate: the message that names the first fault of a template set is not modelled.
- Policy and templates are fixed over a run; a restart with another configuration is not modelled.
