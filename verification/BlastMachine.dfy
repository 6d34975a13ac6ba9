// The blast protocol as a state machine: one sequential worker with an explicit
// program counter, and any number of create, cancel and retry calls that
// interleave with it. Every SQL statement is one atomic guarded step; between
// two statements of the worker, any API step may happen, and the worker may
// lose a step to a database error or a crash at any point.
module BlastMachine {
  import opened Wrappers
  import opened BlastModel
  import opened BlastRows

  /** Where the worker is inside one recipient's turn. */
  datatype Phase =
    | Marked                      // row is `sending`, dispatch not yet issued
    | Accepted(messageId: string) // dispatch succeeded, row not yet settled
    | Refused(error: string)      // dispatch failed, nothing recorded yet
    | FailedCounted(error: string)// failed_count bumped, row not yet settled
    | SentSettled                 // row is `sent`, sent_count not yet bumped
    | DlqSettled                  // row is `dlq`, dlq_count not yet bumped

  /** The worker's program counter with respect to one job. */
  datatype Pc =
    | Off                                        // not on this job
    | Selected                                   // picked by the claim SELECT
    | Claimed                                    // claim UPDATE won, rows not yet reset
    | Begin                                      // process_job entered
    | BadBody                                    // stored body does not parse
    | CheckStatus                                // top of the loop
    | Fetch                                      // status read as `running`
    | Walk(batch: seq<Snap>, pos: nat)           // next recipient is batch[pos]
    | Flight(batch: seq<Snap>, pos: nat, phase: Phase)
    | Drained                                    // batch came back empty
    | Closing(final: JobStatus)                  // counters read, finish not yet issued

  /** A retry call after its status check: about to requeue, or to reopen. */
  datatype RetryPc = Checked | Requeued

  /** History of one job. No step reads it; theorems are stated with it. */
  datatype Ledger = Ledger(
    claimed: bool,                 // ever claimed
    aborts: nat,                   // worker steps lost while on this job
    requeues: nat,                 // requeue statements that changed a row
    lateRows: nat,                 // accepted rows inserted after a claim
    wipedAttempts: nat,            // attempts reset by requeues
    requeuedRows: nat,             // dlq rows put back, with repeats
    lostSent: nat,                 // settled rows whose counter bump was lost
    lostFailed: nat,               // failures counted whose settlement was lost
    lostDlq: nat,
    dispatched: nat,               // dispatches issued
    settled: nat,                  // dispatches whose outcome reached the row
    lostDispatches: nat,           // dispatches whose outcome was lost
    delivered: multiset<Jid>,      // successful dispatches
    answers: set<(Jid, string)>,   // their message ids
    lostDelivered: multiset<Jid>,  // successful dispatches whose outcome was lost
    stuck: set<Jid>,               // left `sending` by a lost step, not reset since
    arrivals: set<Jid>,            // became pending since the last empty batch
    cancelStands: bool,            // a cancel committed and no reopen since
    sinceCancel: nat)              // dispatches since that cancel

  const EMPTY_LEDGER := Ledger(false, 0, 0, 0, 0, 0, 0, 0, 0, 0, 0, 0, multiset{}, {}, multiset{}, {}, {}, false, 0)

  datatype JobState = JobState(
    job: Job,
    rows: seq<Row>,
    inserting: seq<NewRow>,           // what the create call has still to insert
    retries: map<CallId, RetryPc>,
    log: Ledger)

  /** One job as seen by itself: its state and the worker's position on it. */
  datatype Local = Local(js: JobState, pc: Pc)

  datatype JobAction =
    // worker
    | ClaimUpdate(now: int)
    | ResetRows
    | CheckBody
    | FailJob(now: int)
    | ReadStatus
    | FetchBatch
    | MarkSending
    | Dispatch(outcome: Outcome)
    | MarkSent
    | IncrSent
    | IncrFailed
    | MarkError
    | IncrDlq
    | EndBatch
    | ReadCounters
    | Finish(now: int)
    | Abort
    // API calls
    | StoreRow
    | Cancel(session: string, now: int)
    | RetryCheck(call: CallId)
    | RetryRequeue(call: CallId)
    | RetryReopen(call: CallId)

  predicate IsApi(a: JobAction) {
    a.StoreRow? || a.Cancel? || a.RetryCheck? || a.RetryRequeue? || a.RetryReopen?
  }

  predicate Enabled(l: Local, a: JobAction) {
    match a
    case ClaimUpdate(_) => l.pc.Selected?
    case ResetRows => l.pc.Claimed?
    case CheckBody => l.pc.Begin?
    case FailJob(_) => l.pc.BadBody?
    case ReadStatus => l.pc.CheckStatus?
    case FetchBatch => l.pc.Fetch?
    case MarkSending => l.pc.Walk? && l.pc.pos < |l.pc.batch|
    case Dispatch(_) => l.pc.Flight? && l.pc.phase.Marked? && l.pc.pos < |l.pc.batch|
    case MarkSent => l.pc.Flight? && l.pc.phase.Accepted? && l.pc.pos < |l.pc.batch|
    case IncrSent => l.pc.Flight? && l.pc.phase.SentSettled?
    case IncrFailed => l.pc.Flight? && l.pc.phase.Refused?
    case MarkError => l.pc.Flight? && l.pc.phase.FailedCounted? && l.pc.pos < |l.pc.batch|
    case IncrDlq => l.pc.Flight? && l.pc.phase.DlqSettled?
    case EndBatch => l.pc.Walk? && l.pc.pos == |l.pc.batch|
    case ReadCounters => l.pc.Drained?
    case Finish(_) => l.pc.Closing?
    case Abort => !l.pc.Off? && (l.pc.Flight? ==> l.pc.pos < |l.pc.batch|)
    case StoreRow => l.js.inserting != []
    case Cancel(_, _) => true
    case RetryCheck(call) => call !in l.js.retries && !l.js.job.status.JobRunning?
    case RetryRequeue(call) => call in l.js.retries && l.js.retries[call].Checked?
    case RetryReopen(call) => call in l.js.retries && l.js.retries[call].Requeued?
  }

  /** One step of one job. */
  function Step(l: Local, a: JobAction): Local
    requires Enabled(l, a)
  {
    if IsApi(a) then Local(ApiStep(l.js, a), l.pc)
    else if a.Abort? then Local(l.js.(log := LoseStep(l.js.log, l.pc)), Off)
    else if l.pc.Walk? || l.pc.Flight? then BatchStep(l, a)
    else LoopStep(l, a)
  }

  /** Claim, loop head and closing of `tick_once` and `process_job`. */
  function LoopStep(l: Local, a: JobAction): Local
    requires Enabled(l, a) && !IsApi(a) && !a.Abort? && !l.pc.Walk? && !l.pc.Flight?
  {
    var js, job := l.js, l.js.job;
    match a
    case ClaimUpdate(now) =>
      if job.status.JobPending? then
        Local(js.(job := job.(status := JobRunning, startedAt := Some(now)),
                  log := js.log.(claimed := true)), Claimed)
      else Local(js, Off)
    case ResetRows =>
      Local(js.(rows := BulkUpdate(js.rows, ResetSending), log := js.log.(stuck := {})), Begin)
    case CheckBody => Local(js, if job.bodyParses then CheckStatus else BadBody)
    case FailJob(now) => Local(js.(job := job.(status := JobFailed, finishedAt := Some(now))), Off)
    case ReadStatus => Local(js, if job.status.JobRunning? then Fetch else Off)
    case FetchBatch =>
      var batch := PendingBatch(js.rows, BATCH_SIZE);
      if batch == [] then Local(js.(log := js.log.(arrivals := {})), Drained)
      else Local(js, Walk(batch, 0))
    case ReadCounters => Local(js, Closing(if job.dlqCount > 0 then CompletedWithFailures else Completed))
    case Finish(now) => Local(js.(job := job.(status := l.pc.final, finishedAt := Some(now))), Off)
  }

  /** The per-recipient body of the batch loop. */
  function BatchStep(l: Local, a: JobAction): Local
    requires Enabled(l, a) && !IsApi(a) && !a.Abort? && (l.pc.Walk? || l.pc.Flight?)
  {
    var js, job, log, batch, pos := l.js, l.js.job, l.js.log, l.pc.batch, l.pc.pos;
    match a
    case MarkSending =>
      Local(js.(rows := UpdateRow(js.rows, batch[pos].jid, SetSending)), Flight(batch, pos, Marked))
    case Dispatch(Delivered(mid)) =>
      Local(js.(log := log.(dispatched := log.dispatched + 1, sinceCancel := log.sinceCancel + 1,
                            delivered := log.delivered + multiset{batch[pos].jid},
                            answers := log.answers + {(batch[pos].jid, mid)})),
            Flight(batch, pos, Accepted(mid)))
    case Dispatch(Rejected(e)) =>
      Local(js.(log := log.(dispatched := log.dispatched + 1, sinceCancel := log.sinceCancel + 1)),
            Flight(batch, pos, Refused(e)))
    case MarkSent =>
      Local(js.(rows := UpdateRow(js.rows, batch[pos].jid, SetSent(l.pc.phase.messageId)),
                log := log.(settled := log.settled + 1)),
            Flight(batch, pos, SentSettled))
    case IncrSent => Local(js.(job := job.(sentCount := job.sentCount + 1)), Walk(batch, pos + 1))
    case IncrFailed =>
      Local(js.(job := job.(failedCount := job.failedCount + 1)), Flight(batch, pos, FailedCounted(l.pc.phase.error)))
    case MarkError =>
      var js' := js.(log := log.(settled := log.settled + 1));
      if batch[pos].attempts + 1 < job.AttemptCap() then
        Local(js'.(rows := UpdateRow(js.rows, batch[pos].jid, SetRetry(l.pc.phase.error))), Walk(batch, pos + 1))
      else
        Local(js'.(rows := UpdateRow(js.rows, batch[pos].jid, SetDlq(l.pc.phase.error))),
              Flight(batch, pos, DlqSettled))
    case IncrDlq => Local(js.(job := job.(dlqCount := job.dlqCount + 1)), Walk(batch, pos + 1))
    case EndBatch => Local(js, CheckStatus)
  }

  /** The worker forgets where it was: the tables stay, the outcome in hand is lost. */
  function LoseStep(log: Ledger, pc: Pc): Ledger
    requires pc.Flight? ==> pc.pos < |pc.batch|
  {
    var log' := log.(aborts := log.aborts + 1);
    if !pc.Flight? then log' else
    var jid := pc.batch[pc.pos].jid;
    match pc.phase
    case Marked => log'.(stuck := log.stuck + {jid})
    case Accepted(_) => log'.(stuck := log.stuck + {jid}, lostDispatches := log.lostDispatches + 1,
                              lostDelivered := log.lostDelivered + multiset{jid})
    case Refused(_) => log'.(stuck := log.stuck + {jid}, lostDispatches := log.lostDispatches + 1)
    case FailedCounted(_) => log'.(stuck := log.stuck + {jid}, lostDispatches := log.lostDispatches + 1,
                                   lostFailed := log.lostFailed + 1)
    case SentSettled => log'.(lostSent := log.lostSent + 1)
    case DlqSettled => log'.(lostDlq := log.lostDlq + 1)
  }

  /** Create, cancel and retry. */
  function ApiStep(js: JobState, a: JobAction): JobState
    requires IsApi(a)
    requires a.StoreRow? ==> js.inserting != []
  {
    var job, log := js.job, js.log;
    match a
    case StoreRow =>
      var n := js.inserting[0];
      js.(rows := InsertRow(js.rows, n), inserting := js.inserting[1..],
          log := if n.skipped then log
                 else log.(arrivals := log.arrivals + {n.jid},
                           lateRows := log.lateRows + if log.claimed then 1 else 0))
    case Cancel(session, now) =>
      if job.session == session && (job.status.JobPending? || job.status.JobRunning?) then
        js.(job := job.(status := Cancelled, finishedAt := Some(now)),
            log := log.(cancelStands := true, sinceCancel := 0))
      else js
    case RetryCheck(call) => js.(retries := js.retries[call := Checked])
    case RetryRequeue(call) =>
      if Tally(Requeuable, js.rows) == 0 then js.(retries := js.retries - {call})
      else
        js.(rows := BulkUpdate(js.rows, RequeueFailed),
            retries := js.retries[call := Requeued],
            log := log.(requeues := log.requeues + 1,
                        wipedAttempts := log.wipedAttempts + Tally(RequeuableAttempts, js.rows),
                        requeuedRows := log.requeuedRows + Tally(Requeuable, js.rows),
                        arrivals := log.arrivals + RequeuedJids(js.rows)))
    case RetryReopen(call) =>
      var js' := js.(retries := js.retries - {call});
      if job.status.JobRunning? then js'
      else js'.(job := job.(status := JobPending, finishedAt := None), log := log.(cancelStands := false))
  }

  function RequeuedJids(rows: seq<Row>): set<Jid> {
    set i | 0 <= i < |rows| && (rows[i].status == Dlq || rows[i].status == Failed) :: rows[i].jid
  }

  // ------------------------------------------------------------ whole system

  datatype Worker = Idle | Polling | On(id: JobId, pc: Pc)

  datatype State = State(jobs: map<JobId, JobState>, worker: Worker)

  datatype Action =
    | Resume(id: JobId)                 // tick: the oldest running job continues
    | NothingRunning                    // tick: no running job, go and poll
    | PollFails                         // nothing due, or the poll failed
    | Pick(id: JobId, now: int)         // oldest due pending job selected
    | CreateJob(id: JobId, job: Job, newRows: seq<NewRow>)
    | Act(id: JobId, act: JobAction)

  const INITIAL := State(map[], Idle)

  function PcOf(s: State, id: JobId): Pc {
    if s.worker.On? && s.worker.id == id then s.worker.pc else Off
  }

  function View(s: State, id: JobId): Local
    requires id in s.jobs
  {
    Local(s.jobs[id], PcOf(s, id))
  }

  predicate Running(s: State, id: JobId) {
    id in s.jobs && s.jobs[id].job.status.JobRunning?
  }

  /** What the create handler hands over: one row per distinct recipient. */
  predicate FreshJob(job: Job, newRows: seq<NewRow>) {
    && job.status.JobPending?
    && job.total == CountAccepted(newRows)
    && job.sentCount == 0 && job.failedCount == 0 && job.dlqCount == 0
    && job.startedAt.None? && job.finishedAt.None?
    && forall i, j :: 0 <= i < j < |newRows| ==> newRows[i].jid != newRows[j].jid
  }

  function CountAccepted(newRows: seq<NewRow>): nat {
    if newRows == [] then 0 else (if newRows[0].skipped then 0 else 1) + CountAccepted(newRows[1..])
  }

  predicate Candidate(s: State, id: JobId, now: int) {
    id in s.jobs && s.jobs[id].job.status.JobPending? && s.jobs[id].job.Due(now)
  }

  function Started(job: Job): int {
    if job.startedAt.Some? then job.startedAt.value else 0
  }

  ghost predicate Allowed(s: State, a: Action) {
    match a
    case Resume(id) =>
      s.worker.Idle? && Running(s, id)
      && forall o :: Running(s, o) ==> Started(s.jobs[id].job) <= Started(s.jobs[o].job)
    case NothingRunning => s.worker.Idle? && forall o :: o in s.jobs ==> !Running(s, o)
    case PollFails => s.worker.Polling?
    case Pick(id, now) =>
      s.worker.Polling? && Candidate(s, id, now)
      && forall o :: Candidate(s, o, now) ==> s.jobs[id].job.createdAt <= s.jobs[o].job.createdAt
    case CreateJob(id, job, newRows) => id !in s.jobs && FreshJob(job, newRows)
    case Act(id, act) => id in s.jobs && Enabled(View(s, id), act)
  }

  ghost function Next(s: State, a: Action): State
    requires Allowed(s, a)
  {
    match a
    case Resume(id) => s.(worker := On(id, Begin))
    case NothingRunning => s.(worker := Polling)
    case PollFails => s.(worker := Idle)
    case Pick(id, _) => s.(worker := On(id, Selected))
    case CreateJob(id, job, newRows) =>
      s.(jobs := s.jobs[id := JobState(job, [], newRows, map[], EMPTY_LEDGER)])
    case Act(id, act) =>
      var l := Step(View(s, id), act);
      State(s.jobs[id := l.js],
            if IsApi(act) then s.worker else if l.pc.Off? then Idle else On(id, l.pc))
  }

  /** `acts` is a run from `s`: each action is allowed where it is taken. */
  ghost predicate IsRun(s: State, acts: seq<Action>)
    decreases |acts|
  {
    acts == [] || (Allowed(s, acts[0]) && IsRun(Next(s, acts[0]), acts[1..]))
  }

  ghost function After(s: State, acts: seq<Action>): State
    requires IsRun(s, acts)
    decreases |acts|
  {
    if acts == [] then s else After(Next(s, acts[0]), acts[1..])
  }
}
