# Verified model of the WhatsApp gateway's row life cycles and codecs

The gateway sends WhatsApp messages over HTTP. This project models, in Dafny, the
parts of it that move rows through a life cycle and the text and byte codecs
around them, and proves what they keep.

- **Blasts** (bulk sends). A job row and its recipient rows, one sequential worker
  and any number of create, cancel and retry calls. `BlastMachine` is the protocol
  as a state machine: every SQL statement is one atomic guarded step, the worker
  has an explicit program counter and a batch snapshot, and it may lose a step (a
  database error, a crash, a recipient body that cannot be rebuilt) anywhere.
  `BlastTheorems` and `BlastHalting` hold the results over every run, `BlastGaps`
  the runs on which the code does less than its comments say. `BlastStore` and
  `BlastWorker` hold the tables, the handlers and the worker's loops updated in
  place, `BlastCreate` the create handler; `BlastDedup` says what its dedup lets
  through, `BlastDue` what the due test does and `BlastMoves` what the worker makes
  of a job; `BlastLifeCycle` has the moves of a status; `BlastTick` and `BlastApi`
  show that a worker tick and the handler calls are runs of the machine.
  `BlastAnswers` follows the message ids.
- **Scheduled sends.** Any number of pollers fetch due rows and race on a
  compare-and-set claim against each other and against cancels (`ScheduledSends`),
  over stored timestamp text (`Timestamps`). `ScheduledStore` holds the table and the
  poller's tick, `ScheduledApi` the schedule guard and the cancel call, all shown to
  be runs of the system; `ScheduledGaps` says exactly when a message goes out too early.
- **Webhooks.** The circuit breaker (`WebhookCircuit`), the dead-letter ring
  (`WebhookRing`), the retry waits (`WebhookBackoff`), any number of concurrent
  delivery and replay tasks (`WebhookRuns`), and the shared state with its
  operations (`WebhookHub`). `LogoutWindow` is the purge decision of a session.
- **Search.** The LIKE escaper against LIKE itself (`LikeSearch`), the FTS5 query
  builder against FTS5 strings (`FtsQuery`), and the full-text rows kept beside the
  message table (`FtsIndex`).
- **Codecs and tail.** Speech-markup text (`SpeechText`), PCM bytes and frames
  (`Pcm`), WAV files (`Wav`), and the event ring with its polling tail (`EventTail`).

The state machines carry a history that no step reads (`Ledger`, `Trace`, logs of
operations); the theorems are stated with it, and `BlastHistory` ties the ledger of a
blast to the actions of the run.

Where the code and its comments or documentation disagree, the model follows the
code, and a member shows the difference:

- Rows in `sending` are reset on a claim only, not when a running job is resumed
  (src/db/blast.rs:414-416 promises both): `BlastGaps.ResumeStrandsRow`, and
  `BlastTheorems.StrandedUntilReclaimed` for every run.
- `dlq_count` is never lowered by a retry, and finalisation reads it:
  `BlastGaps.RetriedJobKeepsFailure`; `BlastTheorems.FinalStatusMeaning` says what
  the final status means instead.
- `finish_job` has no status guard, so it writes over a cancel, and over a retry that
  put the job back to pending (src/db/blast.rs:926-927 promises that the worker claims
  it again): `BlastGaps.FinishOverwritesCancel` and `BlastGaps.FinishOverwritesRetry`;
  `BlastGaps.CancelIsFinalIff` and `BlastGaps.ReopenHoldsIff` say exactly when a cancel
  is final and when a reopened job stays pending, over every run.
- Dedup across jobs reads `sent` rows only, and src/models/blast.rs:5-7 promises that no
  recipient an earlier blast delivered to is sent to again: `BlastDedup.AcceptedIff` and
  `BlastDedup.AcceptedAgainIff` say exactly what it lets through, and
  `BlastDedup.LostSuccessIsRepeated` and `BlastDedup.OverlapIsRepeated` are runs with two
  deliveries.
- The job row is stored before its recipients:
  `BlastGaps.EarlyClaimClosesEmptyJob`.
- A scheduled time after the year 9999 prints with a plus sign and counts as due at
  once, on the databases that compare text (SQLite and MySQL; PostgreSQL compares
  timestamps): `Timestamps.DueTestExact` and `ScheduledGaps.EarlyIff` give the exact
  condition. `BlastDue.ClaimedEarlyIff` says the same of blasts. A clock set back
  between fetch and dispatch sends early too (`ScheduledGaps.ClockSetBackSendsEarly`):
  `ScheduledGaps.SentEarlyIff` and, for what the schedule guard parks,
  `ScheduledGaps.GuardedEarlyIff` say exactly for which clock readings a message can go
  out before its time.
- The retry wait cuts its exponent to 32 bits: `WebhookBackoff.DelayIsDoublingIff`.
- The `attempts` of a dead-letter entry is documented as the attempts made but holds
  the configured maximum: `WebhookRuns.CutShortRun`, and exactly when it is right,
  `WebhookRuns.AttemptsFieldExact` and `WebhookRuns.AttemptsAlwaysRightIff`.
- A circuit is opened once per streak: after the five minutes it lets every delivery
  through while they go on failing: `WebhookCircuit.FailingUrlLetThrough`, and for
  all failures `WebhookCircuit.ExpiredStaysAllowed`.
- A full-text insert that fails is ignored, and a repeat of the message is ignored
  too: `FtsIndex.FailedIndexIsForever`.
- The event tail loses an event of the same millisecond as the last one sent:
  `EventTail.SameMillisecondIsLost`; with timestamps that go back it repeats:
  `EventTail.ClockBackRepeats`. `EventTail.NothingMissedIff` and
  `EventTail.InOrderIff` say exactly when neither happens.
- A logout within the window may have been forgotten after the clock was set back:
  `LogoutWindow.ClockSetBack`, and exactly when, `LogoutWindow.HistoryIsWindowIff`.

## Model

| member | source | states |
|---|---|---|
| BlastRows.PendingBatchSound | src/db/blast.rs:454-502 | a batch holds at most the limit of distinct rows, each pending with its current attempts; an empty one means no row is pending |
| BlastRows.BatchIsOldest | src/db/blast.rs:454-502 | a batch is the first pending rows in insertion order, as many as there are up to the limit |
| BlastRows.PendingOfAppend | src/db/blast.rs:454-502 | rows inserted later come later among the pending ones |
| BlastRowsInvariant.StepKeepsRows | src/handlers/blast.rs:506-546 | every step of worker or API keeps the attempt bounds, the unique recipients, and every batch row not reached yet pending as in the snapshot |
| BlastRowsInvariant.SentRowsFrozen | src/db/blast.rs:886-924 | no step changes a row that is `sent` |
| BlastCounters.ClauseTallies | src/db/blast.rs:505-632 | what each row update does to the tallies of sent, dead-lettered and accepted rows and of attempts made and left |
| BlastCounters.StepKeepsCounters | src/handlers/blast.rs:512-546 | every step keeps counters equal to tallies up to lost steps, and dispatches within the attempts granted |
| BlastProgress.StepKeepsJobInv | src/handlers/blast.rs:484-562 | every step of one job keeps the whole invariant: rows, counters, stuck rows, status meaning, drained batch, cancel budget, deliveries |
| BlastSafety.NextKeepsInv | src/handlers/blast.rs:469-482 | every action of the system keeps the invariant of every job and at most one running job |
| BlastTheorems.AttemptsAndSnapshot | src/handlers/blast.rs:506-546 | in every reachable state, by the maximum stored with the job: pending, sending and sent rows have no attempt used or fewer than it, a row is dead-lettered iff it has used at least one and all of them, and then has used exactly max(1, max_attempts); unreached batch rows are as in the snapshot |
| BlastTheorems.SentIsForever | src/db/blast.rs:886-924 | over every run a row once `sent` never changes again |
| BlastTheorems.CountersExact | src/db/blast.rs:634-683 | between recipients of a job that lost no step, sent_count, failed_count, dlq_count and total are the tallies of the rows plus what retries took back |
| BlastTheorems.CountersDrift | src/db/blast.rs:634-683 | in every reachable state, crashes included, each counter is off by at most the lost steps plus one |
| BlastTheorems.ClosedJobRows | src/handlers/blast.rs:497-504 | in a finished job a row is `sending` iff a lost step stranded it and `pending` iff it arrived after the last empty batch |
| BlastTheorems.FinalStatusMeaning | src/handlers/blast.rs:550-562 | the final status is completed_with_failures iff more dead-letter settlements were made, retried ones included, than lost their counter bump |
| BlastTheorems.CleanJobCloses | src/handlers/blast.rs:484-562 | a finished job without lost step, retry or late row has no unsettled row, is completed iff all rows are sent or skipped, and completed_with_failures iff one is dead-lettered |
| BlastHistory.CleanRunCloses | src/handlers/blast.rs:484-562 | the same in terms of the run: without a lost step, a requeue or an insert after the claim among its actions, a finished job has only sent, skipped and dead-lettered rows and the status that fits |
| BlastHistory.HistoryCounts | src/handlers/blast.rs:506-546 | over every run the history of a job counts its lost steps, dispatches, settlements and requeues, each once |
| BlastTheorems.StrandedUntilReclaimed | src/handlers/blast.rs:469-482 | a row stranded in `sending` stays so over every run until a claim resets the job's rows |
| BlastTheorems.DispatchesBounded | src/handlers/blast.rs:497-547 | a job issues at most max(1, max_attempts) dispatches for each accepted recipient and requeued row, plus one per lost step, by the stored maximum |
| BlastTheorems.DeliveredOnce | src/handlers/blast.rs:506-546 | a recipient is delivered to at most once more than its lost successes, and when the worker is off exactly one more iff its row is `sent` |
| BlastAnswers.SentRowsCarryTheirAnswer | src/handlers/blast.rs:512-522 | in every reachable state a `sent` row records the message id of a successful dispatch to that very recipient |
| BlastTheorems.AtMostOneRunning | src/db/blast.rs:278-365 | no reachable state has two running jobs |
| BlastLifeCycle.StatusMovesOnlySo | src/db/blast.rs:805-962 | in every reachable state a status changes only by a claim of a pending job, a cancel of a pending or running one, a reopen of one not running, or the end of a run |
| BlastLifeCycle.RetrySteps | src/db/blast.rs:886-962 | however a retry interleaves, its requeue starts exactly the failed and dead-lettered rows over and goes on iff there is one, and its reopen leaves a job that runs by then alone |
| BlastTheorems.CancelBounds | src/handlers/blast.rs:489-514 | after a cancel commits and until a retry reopens the job, at most 50 further dispatches of it happen, under any interleaving and any crashes |
| BlastHalting.RankDrops | src/handlers/blast.rs:497-547 | every worker step strictly lowers a rank built on the attempts left |
| BlastHalting.NeverBlocked | src/handlers/blast.rs:484-547 | a worker on a job always has a next step |
| BlastHalting.CalmRunHalts | src/handlers/blast.rs:497-547 | with cancels and status checks but no requeue, lost step or new row, the worker makes at most rank steps and settles at most one dispatch per attempt left, whatever dispatch answers |
| BlastGaps.ResumeStrandsRow | src/handlers/blast.rs:469-482 | a run from the empty database on which a delivered message's row is `sending` in a completed job |
| BlastGaps.RetriedJobKeepsFailure | src/db/blast.rs:886-962 | a run on which every row is `sent` and the job is completed_with_failures |
| BlastGaps.FinishOverwritesCancel | src/db/blast.rs:805-842 | a run on which a committed cancel becomes completed |
| BlastGaps.FinishOverwritesRetry | src/db/blast.rs:805-842 | a run on which a cancelled job is retried, its row and the job are pending again, and the worker then closes the job with that row pending |
| BlastGaps.EarlyClaimClosesEmptyJob | src/handlers/blast.rs:143-175 | a run on which a job of one recipient is completed and the recipient then stays pending |
| BlastGaps.CancelHoldsIff | src/handlers/blast.rs:484-562 | left to itself, the worker lets go of a cancelled job still cancelled iff it had not passed its last status check |
| BlastGaps.CancelIsKept | src/handlers/blast.rs:484-562 | over any run without a reopen, crashes and calls included, a job cancelled before the worker's last status check stays cancelled |
| BlastGaps.CancelIsFinalIff | src/handlers/blast.rs:484-562 | a cancel is final over every run without a reopen iff the worker had not passed its last status check when it was in force; otherwise some run overwrites it |
| BlastGaps.ReopenHoldsIff | src/db/blast.rs:926-962 | a pending job stays pending over every run without a cancel or a claim of it iff no worker had passed its last status check on it; otherwise some run closes it |
| BlastDue.DueIsTextTest | src/db/blast.rs:295-325 | the due test of the machine, in seconds, is the comparison of the stored text with the text of the clock |
| BlastDue.ClaimedEarlyIff | src/db/blast.rs:295-325 | a blast counts as due before its start time iff that is after the year 9999, and then at any time |
| BlastDue.FarBlastRunsAtOnce | src/db/blast.rs:278-365 | a run on which a blast for the year 10000 is running after the first claim |
| BlastStore.Store.RunningJob | src/db/blast.rs:367-411 | the oldest running job, or none exists |
| BlastStore.Store.ClaimNextDue | src/db/blast.rs:278-365 | claims the oldest pending job that is due by the text test and changes nothing else, or none is due |
| BlastStore.Store.InsertRecipients | src/db/blast.rs:160-222 | the loop inserts the rows in order, a recipient already there being ignored |
| BlastStore.InsertAllIs | src/db/blast.rs:160-222 | rows already there stay first and as they were, no recipient gets a second row, and each new one gets the row asked for |
| BlastStore.Store.AlreadySent | src/db/blast.rs:225-276 | the 500-chunk loop equals the unchunked set of candidates some blast of the session delivered to |
| BlastStore.Store.CancelJob | src/db/blast.rs:844-884 | cancels exactly a pending or running job of the session |
| BlastStore.Store.RequeueFailedRows | src/db/blast.rs:886-924 | requeues the failed and dead-lettered rows and returns their number |
| BlastStore.Store.ReopenJob | src/db/blast.rs:926-962 | puts a job back to pending unless it is running |
| BlastStore.Store.CancelBlast | src/handlers/blast.rs:301-330 | 404, 400 and success each iff their condition, and the whole new table |
| BlastStore.Store.RetryBlast | src/handlers/blast.rs:346-377 | 404 and success each iff their condition; success resets exactly the failed rows and reopens the job; nothing changes otherwise |
| BlastWorker.SettleSent | src/handlers/blast.rs:512-529 | the row of the recipient is sent with its message id and no error, sent_count is one more, nothing else changes; the steps are the machine's and lower the rank |
| BlastWorker.SettleError | src/handlers/blast.rs:530-544 | with an attempt of the stored maximum left the row is pending again, else dead-lettered and dlq_count one more, with the attempt and the error recorded and nothing else changed; the steps are the machine's and lower the rank |
| BlastWorker.ProcessJob | src/handlers/blast.rs:484-562 | the undisturbed loop ends and is a run of the machine; it fails a job with a bad body, and of a running one settles every pending row as sent or dead-lettered after exactly the stored maximum of attempts, leaves every other row and job alone, moves the counters by what was settled and closes the job by dlq_count |
| BlastMoves.RunWorks | src/handlers/blast.rs:484-562 | every finished run of the undisturbed worker from the start of process_job does that to the job and its rows, whatever dispatch answers |
| BlastTick.TickOnce | src/handlers/blast.rs:469-482 | the oldest running job is worked off, or else the oldest due pending job is claimed, its sending rows reset, and worked off, or else nothing changes; no other job changes; the tick is a run of the whole system that ends with an idle worker and the invariant |
| BlastCreate.Collect | src/handlers/blast.rs:104-121 | accepted recipients are the distinct canonical ones in first-seen order, and accepted, skipped and bad ones add up to the request |
| BlastCreate.FirstsInOrder | src/handlers/blast.rs:104-121 | the recipients are exactly those the request names, and of two the one named first comes first |
| BlastCreate.WithoutAppend | src/handlers/blast.rs:130-138 | dropping the recipients already delivered to keeps the order of the others |
| BlastCreate.BuildRows | src/handlers/blast.rs:156-172 | one row per seen recipient, the accepted ones first and pending, exactly the others skipped |
| BlastCreate.CreateBlast | src/handlers/blast.rs:90-185 | 404 and 400 iff their conditions with nothing stored; else the job row is stored as asked, total plus skipped is the request size, rows are the distinct recipients, and pending rows are exactly the total, those not delivered to before when dedup is on |
| BlastDedup.AcceptedIff | src/db/blast.rs:225-276 | in every state of the invariant dedup lets a candidate through iff every delivery to it by any job of the session was lost or is still in the worker's hand |
| BlastDedup.AcceptedAgainIff | src/models/blast.rs:5-7 | a recipient that dedup lets through had been delivered to by a job of the session iff a success of that job was lost or is still in hand |
| BlastDedup.LostSuccessIsRepeated | src/models/blast.rs:5-7 | a run on which dedup lets a delivered recipient through because the success was lost, and it is delivered to again |
| BlastDedup.OverlapIsRepeated | src/models/blast.rs:5-7 | a run on which two jobs for one recipient overlap, dedup lets it through, and both deliver |
| BlastApi.CancelCall | src/handlers/blast.rs:301-330 | 404 and success each iff their condition, with the whole new table; success is the one cancel step of the machine, and anything else changes nothing |
| BlastApi.RetryCall | src/handlers/blast.rs:346-377 | 404 and success each iff their condition, with the whole new tables; success is the machine's check, requeue and reopen, and anything else changes nothing |
| BlastApi.CreateCall | src/handlers/blast.rs:90-185 | 404 and 400 iff their conditions, with nothing stored; else the job row is stored as asked by a job insert followed by recipient inserts only; with dedup its pending rows are for exactly the requested recipients whose deliveries by the session were all lost or are still in hand |
| ScheduledSends.InvOverRun | src/handlers/schedule.rs:251-304 | every step of pollers, cancels, crashes and clock keeps the invariant that at most one poller holds a row |
| ScheduledSends.AtMostOnce | src/handlers/schedule.rs:251-304 | under any number of pollers, cancels, crashes and clock changes a row is dispatched at most once, never after a successful cancel, never by a fetch whose clock read before its second-truncated time, and not dispatched before it unless the clock stepped back over it; its statuses follow the documented path and a settled row records the answer to its one dispatch |
| ScheduledSends.PastOverRun | src/handlers/schedule.rs:251-304 | over every run whose clock does not step back over a time, a row fetched at or past that time is dispatched at or past it |
| ScheduledSends.SteadyNeverStepsBack | src/db/scheduled.rs:21-27 | a clock that never goes back steps back over no time |
| ScheduledGaps.EarlyIff | src/db/scheduled.rs:109-152 | some run dispatches a row by a fetch before its time iff its requested year is after 9999, and then it goes out at once |
| ScheduledGaps.ClockSetBackSendsEarly | src/handlers/schedule.rs:251-304 | with the clock set back between fetch and dispatch the message goes out at a reading before its time |
| ScheduledGaps.SentEarlyIff | src/handlers/schedule.rs:251-304 | for any clock readings, some run with exactly these dispatches a row before its requested time iff its year is after 9999 or a reading before that time directly follows one at or past it |
| ScheduledGaps.GuardedEarlyIff | src/handlers/schedule.rs:40-90 | the same over runs that park only what the schedule guard let through at that or an earlier reading: iff, after such a reading, the clock steps back over that time, or its year is after 9999 |
| ScheduledSends.AbandonedStays | src/db/scheduled.rs:154-193 | a row that left pending and whose holder is gone never changes again |
| ScheduledApi.MaybeSchedule | src/handlers/schedule.rs:55-90 | sends at once iff no time is given or it is at most two seconds away, answers 404 iff the session is unknown otherwise, and else stores the message as asked, which is one step of the system |
| ScheduledApi.ScheduledIff | src/handlers/schedule.rs:40-53 | a message is parked iff its time is more than two seconds away, to the nanosecond |
| ScheduledApi.ParkedIsNotDueIff | src/handlers/schedule.rs:40-53 | what the guard parks is not due when it is parked iff its year is at most 9999 |
| ScheduledStore.Schedule.Claim | src/db/scheduled.rs:154-193 | wins iff the row is pending, and then marks only it `sending` |
| ScheduledApi.CancelScheduled | src/handlers/schedule.rs:134-170 | 404 iff the session has no such row, success iff it is pending, by the one cancel step of the system; nothing changes otherwise |
| ScheduledStore.ProcessDue | src/handlers/schedule.rs:251-304 | an undisturbed tick is a run of the system that settles every fetched row by its own answer and no other row; with at most 50 rows due it leaves none due |
| ScheduledStore.BatchTakesOldest | src/db/scheduled.rs:109-152 | a fetch takes all due rows up to 50, and leaves none that is earlier than one it takes |
| Timestamps.FieldsChronological | src/db/scheduled.rs:21-27 | field by field order is order of the instants cut to seconds, for every calendar date |
| Timestamps.TextIsChronological | src/db/scheduled.rs:21-27 | for years 0 to 9999 the stored text orders as the instants cut to seconds |
| Timestamps.DueTestExact | src/db/scheduled.rs:109-152 | with the clock in years 0 to 9999 the text due test is right iff the requested year is at most 9999 |
| Timestamps.RoundTrip | src/handlers/schedule.rs:212-227 | parsing the stored text gives the time cut to seconds, for every year |
| Timestamps.FormatLayout | src/db/scheduled.rs:21-27 | for years of four digits the text is YYYY-MM-DD HH:MM:SS |
| Timestamps.UnixCountsSeconds | src/db/scheduled.rs:21-27 | the count of seconds the orders are about is zero at 1970, 86400 more on the next day of the calendar, and hours, minutes and seconds within one |
| WebhookCircuit.FailExtendsStreak | src/state.rs:851-867 | one failure moves the circuit of a streak to that of the longer streak, answering Open at the 25th exactly and HardDisable from the 100th |
| WebhookCircuit.CircuitsFollowStreaks | src/state.rs:816-867 | after any operations a circuit's failures are the failed deliveries since the last reset, saturated, and it is opened iff there are 25, five minutes past the 25th |
| WebhookCircuit.RefusedIffShutOut | src/state.rs:816-826 | a URL is refused iff 25 failures came since its reset and the 25th less than five minutes ago |
| WebhookCircuit.ReenableClearsExactlyRefused | src/state.rs:939-958 | re-enabling leaves none refused, resets exactly those that were, and keeps every other streak |
| WebhookCircuit.ExpiredStaysAllowed | src/state.rs:846-867 | once the cooldown has run out, failures alone never shut the URL out again |
| WebhookCircuit.FailingUrlLetThrough | src/state.rs:846-867 | after 25 failures and the cooldown a URL is let through although a 26th delivery has failed |
| WebhookRing.PushKeepsLedger | src/state.rs:905-919 | a push keeps the ring the newest suffix of its history |
| WebhookRing.TakeKeepsLedger | src/state.rs:930-937 | a take by id keeps the ring the newest suffix of its history |
| WebhookRing.RingIsNewestSuffix | src/state.rs:905-937 | after any pushes and takes the ring is within capacity, is the newest suffix of pushes minus taken ones, and has lost no untaken entry with fewer than capacity pushes after it |
| WebhookRing.RefusedReplayKeepsEntries | src/handlers/webhooks.rs:236-250 | take and push back with pushes in between loses nothing iff those pushes fit; with none in between it keeps the entries |
| WebhookRuns.StepKeepsTasks | src/state.rs:1134-1271 | every step of every task keeps each task's deeds exactly those its stage calls for |
| WebhookRuns.EndsOneWay | src/state.rs:1134-1271 | under any interleaving a delivery makes at most max(1, max_attempts) posts and ends in exactly one way: credited once, or blamed once and parked once with its own event, or given back untried |
| WebhookRuns.AttemptsFieldExact | src/state.rs:1247-1257 | the entry's attempts is the number of posts iff the run was not cut short by a reply that is not retried |
| WebhookRuns.CutShortRun | src/state.rs:1181-1193 | with retries on 4xx off a run of one post, answered 403, is dead-lettered as the configured number of attempts |
| WebhookRuns.AttemptsAlwaysRightIff | src/state.rs:1247-1257 | every dead-lettered entry of every run holds the posts made iff 4xx replies are retried or one attempt is configured |
| WebhookRuns.BreakerFollowsRuns | src/state.rs:1207-1231 | under any interleaving refusal follows the streak, and the breaker saw one failure per failed run and one success per delivered run of the URL |
| WebhookRuns.StepKeepsFlow | src/state.rs:905-937 | every step keeps each ring's history equal to what the tasks parked, gave back and took there |
| WebhookRuns.RingsAreNewestSuffixes | src/state.rs:900-937 | under any interleaving every session's ring is within capacity, is the newest suffix of its pushes minus taken ones, and its history is exactly what the tasks did to it since it was last removed |
| WebhookRuns.PostsIffNotShutOut | src/state.rs:1081-1110 | in every reachable state a broadcast or a replay goes on to post iff fewer than 25 failures of the URL came since its reset or the 25th is five minutes old, and changes nothing else |
| WebhookHub.Hub.CircuitAllows | src/state.rs:816-826 | lets through iff the URL is not among the refused ones |
| WebhookHub.Hub.OpenCount | src/state.rs:829-836 | the count is the number of URLs refused at that instant |
| WebhookHub.Hub.RecordFailure | src/state.rs:851-867 | the in-place update and its answer are those of the breaker specification |
| WebhookHub.Hub.ReenableAll | src/state.rs:944-958 | returns exactly the refused URLs, each once, and leaves none refused |
| WebhookHub.Hub.DlqPush | src/state.rs:908-919 | the eviction loop leaves the newest capacity entries, the new one last, in its session's ring only |
| WebhookHub.Hub.DlqTake | src/state.rs:933-937 | removes and returns the first entry with the id, or changes nothing |
| WebhookHub.Deliver | src/state.rs:1134-1271 | an undisturbed delivery posts until a 2xx answer, a 4xx one that is not retried (408 and 429 always are), or the last attempt; it returns true iff some answer up to there is 2xx; the circuit and the ring afterwards follow, and it is a run of the system |
| WebhookHub.ReplayEntry | src/handlers/webhooks.rs:228-274 | 404 iff no such entry; refused iff the circuit is open, with the same entries in the ring; else the entry is out of it and its task ready to post |
| WebhookBackoff.DelayIsDoublingIff | src/state.rs:118-128 | the wait is 60 s doubled and capped at 300 s iff the exponent, cut to 32 bits, stays at three or more or was below; always below 2^32 attempts |
| WebhookBackoff.DelayGrows | src/state.rs:118-128 | no wait is over five minutes, and waits never shrink below 2^32 attempts |
| WebhookBackoff.FirstWaits | src/state.rs:118-128 | the waits are 0, 5, 30, 60, 120 and 240 seconds, then 300 below 2^32 attempts |
| WebhookBackoff.WrapExample | src/state.rs:118-128 | attempt 2^32 + 3 waits one minute |
| LogoutWindow.History.RecordLogoutAndShouldPurge | src/state.rs:344-352 | keeps the logouts in the window and answers whether three are there |
| LogoutWindow.HistoryIsSurvivors | src/state.rs:344-352 | whatever the clock does, the history is exactly the logouts that no later reading found out of the window, in order |
| LogoutWindow.HistoryIsWindowIff | src/state.rs:344-352 | it is the whole record cut to the window iff each logout in the last window survived every later reading |
| LogoutWindow.PurgeIffThreeSurvive | src/state.rs:339-352 | whatever the clock does, the purge is ordered iff two earlier logouts survive beside this one |
| LogoutWindow.SteadyClock | src/state.rs:339-352 | with a clock that never goes back nothing is forgotten, and the purge is ordered iff the third latest logout is less than ten minutes old |
| LogoutWindow.ClockSetBack | src/state.rs:344-352 | with a clock set back four logouts are in the window and no purge is ordered |
| LikeSearch.ReplacesAreOneMap | src/db/messages.rs:484-490 | the three replacements are one pass that escapes each special character once |
| LikeSearch.LikePatternIsSubstring | src/db/messages.rs:484-490 | a body matches the pattern iff the query occurs in it literally, for every query, body and character folding |
| LikeSearch.PatternWellFormed | src/db/messages.rs:484-490 | each escape character of the pattern stands before a special one |
| FtsQuery.MatchQueryReadsBack | src/db/messages.rs:492-504 | the expression reads back as exactly the tokens, in order, and no token is empty or holds a quote or whitespace |
| FtsQuery.TokensKeepText | src/db/messages.rs:492-504 | the tokens hold every character but whitespace and quotes, in order, and the expression is empty iff there is none |
| FtsQuery.TokensSplitAtWhitespace | src/db/messages.rs:492-504 | every whitespace character separates tokens, and a query without any is one token, its characters less the quotes, or none |
| FtsQuery.MatchQueryIs | src/db/messages.rs:492-504 | such a query becomes its characters less the quotes between quotes, and whitespace joins two expressions by one space |
| FtsIndex.MessageStore.Insert | src/db/messages.rs:195-236 | the two statements leave the tables of the specification |
| FtsIndex.MessageStore.Search | src/db/messages.rs:317-345 | the nested search is the join of the specification |
| FtsIndex.InsertsKeepTables | src/db/messages.rs:195-236 | after any inserts with repeats keys are unique, each holds its first message, and the full-text rows are exactly those of first messages with a body whose full-text insert worked |
| FtsIndex.SearchFindsEachOnce | src/db/messages.rs:322-325 | a search returns each message at most once, with the matching body, and finds every indexed match |
| FtsIndex.FailedIndexIsForever | src/db/messages.rs:223-233 | a key whose first message failed its full-text insert has no full-text row ever after, whatever came before or is offered later |
| SpeechText.SanitizeSsmlText | src/handlers/calls.rs:816-845 | read back as XML, the result is the text without the dropped characters, its whitespace runs one space and its ends trimmed |
| SpeechText.SanitizedReadsBack | src/handlers/calls.rs:816-845 | the same of what the loop writes, for every text |
| SpeechText.KeptIff | src/handlers/calls.rs:816-845 | the characters kept are newline, return, tab and all but the control characters and the byte-order mark, by code point |
| SpeechText.ReadableHasNoMarkup | src/handlers/calls.rs:797-815 | text that reads back holds no raw markup character, and every ampersand starts one of the five entities |
| Pcm.DecodeEncode | src/handlers/calls.rs:788-793 | little-endian samples written and read back are the same |
| Pcm.EncodeDecode | src/handlers/calls.rs:788-793 | bytes read and written back are the same but for an odd last one |
| Pcm.LittleEndian | src/handlers/calls.rs:788-793 | the low byte comes first and the pair is the sample in two's complement |
| Pcm.ReadSamples | src/handlers/calls.rs:788-793 | the loop reads every whole pair of bytes |
| Pcm.Frames | src/handlers/calls.rs:57-82 | frames are full, as many as it takes, and hold silence, speech and fewer than 960 zeros in order |
| Wav.BuildWav | src/handlers/calls.rs:242-269 | the bytes appended are the file of the specification |
| Wav.WavIsRiffIff | src/handlers/calls.rs:242-269 | the file is RIFF/WAVE with its format and data chunks iff 36 + 2n fits 32 bits |
| Wav.WavReadsBackIff | src/handlers/calls.rs:242-269 | a reader gets 16000 Hz, mono, 16 bits and the same samples iff 36 + 2n fits 32 bits, and refuses the file otherwise |
| EventTail.EventRing.PushEvent | src/state.rs:767-788 | the ring stays the newest 200 events, with a preview of at most 160 characters |
| EventTail.EventRing.RecentEvents | src/state.rs:790-793 | the newest events up to the limit, newest first |
| EventTail.Tail.Connect | src/handlers/events.rs:83-94 | of the newest 50 events exactly those of the session and kind asked for are sent, in push order, and the cursor is the time of the last |
| EventTail.Tail.Poll | src/handlers/events.rs:96-115 | of the newest 200 events exactly those later than the cursor and of the session and kind asked for are sent, in push order, and the cursor moves to the last |
| EventTail.LaterPushesDoNotMatter | src/handlers/events.rs:96-115 | what a look finds does not depend on later pushes |
| EventTail.StreamInOrder | src/handlers/events.rs:77-115 | when no matching event is earlier than a matching one of its ring, the positions sent strictly increase and all match: no repeat, no reordering |
| EventTail.InOrderIff | src/handlers/events.rs:77-115 | the tail never repeats or reorders, for any connection and polls, iff no matching event is earlier than a matching one fewer than 200 pushes before it |
| EventTail.SentIff | src/handlers/events.rs:96-115 | an event pushed between two polls is ever sent iff it matches, is among the newest 200 at the later one, and is later than the last one sent before |
| EventTail.NothingMissed | src/handlers/events.rs:77-115 | when matching events have positive, strictly increasing times, at most 200 pushes between looks lose no matching event pushed after the connection |
| EventTail.NothingMissedIff | src/handlers/events.rs:77-115 | polls at most 200 pushes apart never miss a matching event pushed after a connection iff matching events have positive, strictly increasing times |
| EventTail.SameMillisecondIsLost | src/handlers/events.rs:96-115 | the second of two events of one millisecond with a poll in between is never sent |
| EventTail.ClockBackRepeats | src/handlers/events.rs:96-115 | a time that goes back makes the tail send an event twice |

## Left out

- The PostgreSQL, MySQL and SQLite drivers and their row mappers: the statements express the same guard per operation, so one abstract table stands for them, with the unique keys of src/db/schema.rs:120 and src/db/schema.rs:142.
- The send handlers and the arms of `dispatch`: dispatch is an arbitrary outcome, success or error.
- HTTP routing, authentication, metrics, NATS, object storage, speech synthesis, ffmpeg and call plumbing: input and output.
- HMAC signing and token encoding: library cryptography.
- The float samples handed to the voice encoder, and the encoder: `Pcm` stops at the frames of 16-bit samples.
- Random jitter and sleeping: waits are values only, as in `WebhookBackoff`.
- `updated_at` columns, progress and completion broadcasts: no step reads them.
- Identifiers are opaque numbers; generated ids are parameters that must be fresh, and the canonical form of a recipient is a function parameter of the create handler.
- BlastWorker.ProcessJob: an undisturbed run of the loop; what may happen between its statements is the state machine's business, and `BlastTheorems` covers it.
- WebhookHub.Deliver: an undisturbed delivery, likewise; `WebhookRuns` covers the interleavings.
- ScheduledStore.ProcessDue: an undisturbed tick over any batch the due SELECT may return, likewise; `ScheduledSends` covers the interleavings.
- BlastStore.Store.ClaimNextDue: the due test is the text comparison of SQLite and MySQL, here too; PostgreSQL compares timestamps, for which a start time after the year 9999 is not due early.
- BlastStore.Store.CancelBlast: the second 400 answer, when the job changes between the read and the update, does not arise undisturbed; the update itself is a step of the machine.
- WebhookHub.Hub.OpenCount: the pass over the concurrent map is taken as one atomic read, and so is the pass of re-enabling.
- The database copy of the dead-letter queue and the `enabled = false` write of a hard disable: nothing in the model reads them.
- The circuit's `last_event` field: written, never read.
- Which webhooks of a session are enabled and subscribe to an event: `WebhookRuns` starts at the circuit test of one URL.
- Timestamps.RoundTrip: the sub-second and RFC 3339 formats, which the code only falls back to, are not parsed, and leap seconds are not represented.
- ScheduledSends.AtMostOnce: for requested years above 9999 the time bound does not hold, as `ScheduledGaps.EarlyIff` shows. The due test is the text comparison of SQLite and MySQL; PostgreSQL compares TIMESTAMPTZ against its own clock, for which that exception does not arise. Clock readings stay in years 0 to 9999 and may go back. A row may be parked at any reading there; `ScheduledGaps.GuardedEarlyIff` adds the guard.
- Ordering and paging of search results, snippets, and the queries of the other two databases.
- Tags, tokens, contacts, device properties, listings and enum string tables: easy members only.
- ScheduledApi.CancelScheduled: the second 400 answer, when the row is claimed between the read and the update, does not arise undisturbed; the update itself is a step of the system.
- The choice of default options.
