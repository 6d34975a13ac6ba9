// The blast worker's code over the tables: `process_job` and `finalize_job`
// (`tick_once` is in `BlastTick`). Left undisturbed, the loop is a run of the state
// machine, statement for statement, so everything proved there holds of it.
module BlastWorker {
  import opened Wrappers
  import opened BlastModel
  import opened BlastRows
  import opened BlastMachine
  import opened BlastRowsInvariant
  import opened BlastProgress
  import opened BlastHalting
  import opened BlastMoves
  import opened BlastStore

  /** The tables hold what the machine says about job `id`. */
  ghost predicate Synced(db: Store, id: JobId, l: Local)
    reads db
  {
    && id in db.jobs && id in db.recipients && db.Valid()
    && db.jobs[id] == l.js.job && db.recipients[id] == l.js.rows
  }

  /** Nothing but job `id` changed. */
  twostate predicate OthersKept(db: Store, id: JobId)
    reads db
  {
    && db.jobs.Keys == old(db.jobs).Keys && db.recipients.Keys == old(db.recipients).Keys
    && (forall o :: o in db.jobs && o != id ==> db.jobs[o] == old(db.jobs)[o])
    && (forall o :: o in db.recipients && o != id ==> db.recipients[o] == old(db.recipients)[o])
  }

  /** `acts` takes the undisturbed worker from `l0` to `l`. */
  ghost predicate Ran(l0: Local, acts: seq<JobAction>, l: Local) {
    WorkerRun(l0, acts) && WorkerEnd(l0, acts) == l
  }

  /** One more worker step of a run. */
  lemma {:induction false} Took(l0: Local, acts: seq<JobAction>, l: Local, a: JobAction)
    requires Ran(l0, acts, l) && JobInv(l)
    requires IsWorker(a) && Enabled(l, a)
    ensures WorkerRun(l0, acts + [a]) && WorkerEnd(l0, acts + [a]) == Step(l, a)
    ensures JobInv(Step(l, a)) && Rank(Step(l, a)) < Rank(l)
  {
    hide Step, JobInv, Enabled, Rank;
    assert WorkerRun(l, [a]) && WorkerEnd(l, [a]) == Step(l, a) by {
      assert [a][1..] == [];
    }
    WorkerRunThen(l0, acts, [a]);
    StepKeepsJobInv(l, a);
    assert RowsInv(l) by { InvHasRows(l); }
    RankDrops(l, a);
  }

  /** What each settling step does to the tables, without its history. */
  lemma {:induction false} SettlingStep(l: Local, a: JobAction)
    requires l.pc.Flight? && Enabled(l, a) && IsWorker(a) && !a.Dispatch?
    ensures var l', job, rows, batch, pos := Step(l, a), l.js.job, l.js.rows, l.pc.batch, l.pc.pos;
      && (a.MarkSent? ==>
            && l'.pc == Flight(batch, pos, SentSettled) && l'.js.job == job
            && l'.js.rows == UpdateRow(rows, batch[pos].jid, SetSent(l.pc.phase.messageId)))
      && (a.IncrSent? ==>
            l'.pc == Walk(batch, pos + 1) && l'.js.rows == rows && l'.js.job == job.(sentCount := job.sentCount + 1))
      && (a.IncrFailed? ==>
            && l'.pc == Flight(batch, pos, FailedCounted(l.pc.phase.error)) && l'.js.rows == rows
            && l'.js.job == job.(failedCount := job.failedCount + 1))
      && (a.MarkError? && batch[pos].attempts + 1 < job.AttemptCap() ==>
            && l'.pc == Walk(batch, pos + 1) && l'.js.job == job
            && l'.js.rows == UpdateRow(rows, batch[pos].jid, SetRetry(l.pc.phase.error)))
      && (a.MarkError? && batch[pos].attempts + 1 >= job.AttemptCap() ==>
            && l'.pc == Flight(batch, pos, DlqSettled) && l'.js.job == job
            && l'.js.rows == UpdateRow(rows, batch[pos].jid, SetDlq(l.pc.phase.error)))
      && (a.IncrDlq? ==>
            l'.pc == Walk(batch, pos + 1) && l'.js.rows == rows && l'.js.job == job.(dlqCount := job.dlqCount + 1))
  {
    assert Step(l, a) == BatchStep(l, a);
  }

  /** The row of recipient `jid` is what `set_` makes of it, and every other row is as it was. */
  ghost predicate RowsAre(was: seq<Row>, rows: seq<Row>, jid: Jid, set_: Row -> Row) {
    |rows| == |was|
    && forall i :: 0 <= i < |rows| ==> rows[i] == if was[i].jid == jid then set_(was[i]) else was[i]
  }

  /** The dispatch succeeded: settle the row, then count it. */
  method SettleSent(db: Store, id: JobId, batch: seq<Snap>, pos: nat, messageId: string,
                    ghost l0: Local, ghost acts0: seq<JobAction>, ghost l: Local)
    returns (ghost acts: seq<JobAction>, ghost l': Local)
    requires Synced(db, id, l) && JobInv(l) && l.pc == Flight(batch, pos, Accepted(messageId)) && pos < |batch|
    requires Ran(l0, acts0, l)
    modifies db
    ensures Synced(db, id, l') && OthersKept(db, id) && JobInv(l') && l'.pc == Walk(batch, pos + 1)
    ensures Ran(l0, acts, l') && Rank(l') < Rank(l) && SameRun(l, l')
    ensures RowsAre(old(db.recipients)[id], db.recipients[id], batch[pos].jid,
                    (r: Row) => r.(status := Sent, messageId := Some(messageId), lastError := None))
    ensures db.jobs[id] == old(db.jobs)[id].(sentCount := old(db.jobs)[id].sentCount + 1)
  {
    hide JobInv, Rank, Ran, UpdateRow, Step, Job.AttemptCap, Enabled;
    SentSteps(l);
    acts, l' := Takes(l0, acts0, l, MarkSent);
    acts, l' := Takes(l0, acts, l', IncrSent);
    StoreSent(db, id, batch[pos].jid, messageId);
  }

  /** The two steps of a success together. */
  lemma SentSteps(l: Local)
    requires l.pc.Flight? && l.pc.phase.Accepted? && l.pc.pos < |l.pc.batch|
    ensures Enabled(l, MarkSent) && Enabled(Step(l, MarkSent), IncrSent)
    ensures var l', job := Step(Step(l, MarkSent), IncrSent), l.js.job;
      && l'.pc == Walk(l.pc.batch, l.pc.pos + 1)
      && l'.js.job == job.(sentCount := job.sentCount + 1)
      && l'.js.rows == UpdateRow(l.js.rows, l.pc.batch[l.pc.pos].jid, SetSent(l.pc.phase.messageId))
  {
    hide UpdateRow;
    SettlingStep(l, MarkSent);
    SettlingStep(Step(l, MarkSent), IncrSent);
  }

  /** The two statements of a success. */
  method StoreSent(db: Store, id: JobId, jid: Jid, messageId: string)
    requires db.Valid() && id in db.jobs && id in db.recipients
    modifies db
    ensures db.Valid() && OthersKept(db, id) && id in db.jobs && id in db.recipients
    ensures db.jobs[id] == old(db.jobs)[id].(sentCount := old(db.jobs)[id].sentCount + 1)
    ensures db.recipients[id] == UpdateRow(old(db.recipients)[id], jid, SetSent(messageId))
    ensures RowsAre(old(db.recipients)[id], db.recipients[id], jid,
                    (r: Row) => r.(status := Sent, messageId := Some(messageId), lastError := None))
  {
    hide UpdateRow;
    db.UpdateRecipient(id, jid, SetSent(messageId));
    db.IncrSent(id);
  }

  /** The two steps of a dead-lettering together. */
  lemma DeadLetterSteps(l: Local)
    requires l.pc.Flight? && l.pc.phase.FailedCounted? && l.pc.pos < |l.pc.batch|
    requires l.pc.batch[l.pc.pos].attempts + 1 >= l.js.job.AttemptCap()
    ensures Enabled(l, MarkError) && Enabled(Step(l, MarkError), IncrDlq)
    ensures var l', job := Step(Step(l, MarkError), IncrDlq), l.js.job;
      && l'.pc == Walk(l.pc.batch, l.pc.pos + 1)
      && l'.js.job == job.(dlqCount := job.dlqCount + 1)
      && l'.js.rows == UpdateRow(l.js.rows, l.pc.batch[l.pc.pos].jid, SetDlq(l.pc.phase.error))
  {
    hide UpdateRow;
    SettlingStep(l, MarkError);
    SettlingStep(Step(l, MarkError), IncrDlq);
  }

  /** The last attempt failed: dead-letter the row, then count it. */
  method DeadLetter(db: Store, id: JobId, batch: seq<Snap>, pos: nat, error: string,
                    ghost l0: Local, ghost acts0: seq<JobAction>, ghost l: Local)
    returns (ghost acts: seq<JobAction>, ghost l': Local)
    requires Synced(db, id, l) && JobInv(l) && l.pc == Flight(batch, pos, FailedCounted(error)) && pos < |batch|
    requires batch[pos].attempts + 1 >= l.js.job.AttemptCap()
    requires Ran(l0, acts0, l)
    modifies db
    ensures Synced(db, id, l') && OthersKept(db, id) && JobInv(l') && l'.pc == Walk(batch, pos + 1)
    ensures Ran(l0, acts, l') && Rank(l') < Rank(l) && SameRun(l, l')
    ensures RowsAre(old(db.recipients)[id], db.recipients[id], batch[pos].jid,
                    (r: Row) => r.(status := Dlq, attempts := r.attempts + 1, lastError := Some(error)))
    ensures db.jobs[id] == old(db.jobs)[id].(dlqCount := old(db.jobs)[id].dlqCount + 1)
  {
    hide JobInv, Rank, Ran, UpdateRow, Step, Job.AttemptCap, Enabled;
    DeadLetterSteps(l);
    acts, l' := Takes(l0, acts0, l, MarkError);
    acts, l' := Takes(l0, acts, l', IncrDlq);
    StoreDlq(db, id, batch[pos].jid, error);
  }

  /** The two statements of a dead-lettering. */
  method StoreDlq(db: Store, id: JobId, jid: Jid, error: string)
    requires db.Valid() && id in db.jobs && id in db.recipients
    modifies db
    ensures db.Valid() && OthersKept(db, id) && id in db.jobs && id in db.recipients
    ensures db.jobs[id] == old(db.jobs)[id].(dlqCount := old(db.jobs)[id].dlqCount + 1)
    ensures db.recipients[id] == UpdateRow(old(db.recipients)[id], jid, SetDlq(error))
    ensures RowsAre(old(db.recipients)[id], db.recipients[id], jid,
                    (r: Row) => r.(status := Dlq, attempts := r.attempts + 1, lastError := Some(error)))
  {
    hide UpdateRow;
    db.UpdateRecipient(id, jid, SetDlq(error));
    db.IncrDlq(id);
  }

  /** The failed attempt is counted: put the recipient back while the stored maximum
      leaves it an attempt, or dead-letter it. */
  method SettleError(db: Store, id: JobId, batch: seq<Snap>, pos: nat, maxAttempts: nat, error: string,
                     ghost l0: Local, ghost acts0: seq<JobAction>, ghost l: Local)
    returns (ghost acts: seq<JobAction>, ghost l': Local)
    requires Synced(db, id, l) && JobInv(l) && l.pc == Flight(batch, pos, FailedCounted(error)) && pos < |batch|
    requires maxAttempts == l.js.job.AttemptCap()
    requires Ran(l0, acts0, l)
    modifies db
    ensures Synced(db, id, l') && OthersKept(db, id) && JobInv(l') && l'.pc == Walk(batch, pos + 1)
    ensures Ran(l0, acts, l') && Rank(l') < Rank(l) && SameRun(l, l')
    ensures batch[pos].attempts + 1 < old(db.jobs)[id].maxAttempts ==>
      && RowsAre(old(db.recipients)[id], db.recipients[id], batch[pos].jid,
                 (r: Row) => r.(status := Pending, attempts := r.attempts + 1, lastError := Some(error)))
      && db.jobs[id] == old(db.jobs)[id]
    ensures batch[pos].attempts + 1 >= old(db.jobs)[id].maxAttempts ==>
      && RowsAre(old(db.recipients)[id], db.recipients[id], batch[pos].jid,
                 (r: Row) => r.(status := Dlq, attempts := r.attempts + 1, lastError := Some(error)))
      && db.jobs[id] == old(db.jobs)[id].(dlqCount := old(db.jobs)[id].dlqCount + 1)
  {
    hide JobInv, Rank, Ran, UpdateRow, Step;
    if batch[pos].attempts + 1 < maxAttempts {
      SettlingStep(l, MarkError);
      db.UpdateRecipient(id, batch[pos].jid, SetRetry(error));
      acts, l' := Takes(l0, acts0, l, MarkError);
    } else {
      acts, l' := DeadLetter(db, id, batch, pos, error, l0, acts0, l);
    }
  }

  /** The dispatch failed: count it, then settle. */
  method SettleRefused(db: Store, id: JobId, batch: seq<Snap>, pos: nat, maxAttempts: nat, error: string,
                       ghost l0: Local, ghost acts0: seq<JobAction>, ghost l: Local)
    returns (ghost acts: seq<JobAction>, ghost l': Local)
    requires Synced(db, id, l) && JobInv(l) && l.pc == Flight(batch, pos, Refused(error)) && pos < |batch|
    requires maxAttempts == l.js.job.AttemptCap()
    requires Ran(l0, acts0, l)
    modifies db
    ensures Synced(db, id, l') && OthersKept(db, id) && JobInv(l') && l'.pc == Walk(batch, pos + 1)
    ensures Ran(l0, acts, l') && Rank(l') < Rank(l) && SameRun(l, l')
  {
    hide JobInv, Rank, Ran, UpdateRow, Step;
    db.IncrFailed(id);
    SettlingStep(l, IncrFailed);
    acts, l' := Takes(l0, acts0, l, IncrFailed);
    acts, l' := SettleError(db, id, batch, pos, maxAttempts, error, l0, acts, l');
  }

  /** A send changes neither the job's status nor its attempt cap. */
  ghost predicate SameRun(l: Local, l': Local) {
    l'.js.job.status == l.js.job.status && l'.js.job.maxAttempts == l.js.job.maxAttempts
  }

  /** Mark the recipient and dispatch: either outcome may come back. */
  method MarkAndDispatch(db: Store, id: JobId, batch: seq<Snap>, pos: nat,
                         ghost l0: Local, ghost acts0: seq<JobAction>, ghost l: Local)
    returns (outcome: Outcome, ghost acts: seq<JobAction>, ghost l': Local)
    requires Synced(db, id, l) && JobInv(l) && l.pc == Walk(batch, pos) && pos < |batch|
    requires Ran(l0, acts0, l)
    modifies db
    ensures Synced(db, id, l') && OthersKept(db, id) && JobInv(l') && SameRun(l, l')
    ensures l'.pc ==
      Flight(batch, pos, if outcome.Delivered? then Accepted(outcome.messageId) else Refused(outcome.error))
    ensures Ran(l0, acts, l') && Rank(l') < Rank(l)
    ensures RowsAre(old(db.recipients)[id], db.recipients[id], batch[pos].jid,
                    (r: Row) => r.(status := Sending, lastError := None))
    ensures db.jobs == old(db.jobs)
  {
    hide JobInv, Rank, Ran, UpdateRow, ApiStep, LoseStep, LoopStep;
    db.UpdateRecipient(id, batch[pos].jid, SetSending);
    acts, l' := Takes(l0, acts0, l, MarkSending);
    outcome := *;
    acts, l' := Takes(l0, acts, l', Dispatch(outcome));
  }

  /** One recipient's turn: mark, dispatch, settle, count. */
  method SendOne(db: Store, id: JobId, batch: seq<Snap>, pos: nat, maxAttempts: nat,
                 ghost l0: Local, ghost acts0: seq<JobAction>, ghost l: Local)
    returns (ghost acts: seq<JobAction>, ghost l': Local)
    requires Synced(db, id, l) && JobInv(l) && l.pc == Walk(batch, pos) && pos < |batch|
    requires maxAttempts == l.js.job.AttemptCap()
    requires Ran(l0, acts0, l)
    modifies db
    ensures Synced(db, id, l') && OthersKept(db, id) && JobInv(l') && l'.pc == Walk(batch, pos + 1)
    ensures Ran(l0, acts, l') && Rank(l') < Rank(l) && SameRun(l, l')
  {
    hide JobInv, Rank, Ran, Step, Enabled, Synced;
    var outcome;
    outcome, acts, l' := MarkAndDispatch(db, id, batch, pos, l0, acts0, l);
    match outcome {
      case Delivered(messageId) =>
        acts, l' := SettleSent(db, id, batch, pos, messageId, l0, acts, l');
      case Rejected(error) =>
        acts, l' := SettleRefused(db, id, batch, pos, maxAttempts, error, l0, acts, l');
    }
  }

  lemma StartRun(l: Local)
    ensures Ran(l, [], l)
  {
  }

  lemma {:induction false} Takes(l0: Local, acts: seq<JobAction>, l: Local, a: JobAction)
    returns (acts': seq<JobAction>, l': Local)
    requires Ran(l0, acts, l) && JobInv(l)
    requires IsWorker(a) && Enabled(l, a)
    ensures Ran(l0, acts', l') && l' == Step(l, a)
    ensures JobInv(l') && Rank(l') < Rank(l)
  {
    Took(l0, acts, l, a);
    acts', l' := acts + [a], Step(l, a);
  }

  /** `process_job` with its loop and `finalize_job`: it ends, it is a run of the
      machine, and it works a running job off, whatever dispatch answers. */
  method ProcessJob(db: Store, id: JobId, now: int, ghost l: Local)
    returns (ghost acts: seq<JobAction>, ghost l': Local)
    requires Synced(db, id, l) && JobInv(l) && l.pc.Begin?
    modifies db
    ensures Synced(db, id, l') && OthersKept(db, id) && JobInv(l') && l'.pc.Off?
    ensures Ran(l, acts, l')
    ensures !old(db.jobs)[id].bodyParses || old(db.jobs)[id].status.JobRunning? ==>
      Worked(old(db.jobs)[id], old(db.recipients)[id], db.jobs[id], db.recipients[id], now)
    ensures old(db.jobs)[id].bodyParses && !old(db.jobs)[id].status.JobRunning? ==>
      db.jobs == old(db.jobs) && db.recipients == old(db.recipients)
  {
    hide JobInv, Rank, Ran, UpdateRow, PendingBatch, ApiStep, LoseStep, BatchStep, Drained;
    acts, l' := [], l;
    StartRun(l);
    var maxAttempts := db.jobs[id].AttemptCap();
    var bodyParses := db.jobs[id].bodyParses;
    acts, l' := Takes(l, acts, l', CheckBody);
    if !bodyParses {
      db.FinishJob(id, JobFailed, now);
      acts, l' := Takes(l, acts, l', FailJob(now));
      return;
    }
    var done := false;
    while !done
      invariant Synced(db, id, l') && OthersKept(db, id) && JobInv(l')
      invariant Ran(l, acts, l')
      invariant if done then l'.pc.Off? else l'.pc.CheckStatus? && SameRun(l, l')
      invariant maxAttempts == l.js.job.AttemptCap()
      invariant !l.js.job.status.JobRunning? ==> l'.js == l.js
      invariant done && l.js.job.status.JobRunning? ==> Drained(l'.js, now)
      decreases Rank(l')
    {
      RankIsNat(l');
      done, acts, l' := OnePass(db, id, maxAttempts, now, l, acts, l');
    }
    if l.js.job.status.JobRunning? {
      DrainedIsWorked(l, l', acts, now);
    }
  }

  lemma DrainedIsWorked(l: Local, l': Local, acts: seq<JobAction>, now: int)
    requires JobInv(l) && l.pc.Begin? && l.js.job.bodyParses && Ran(l, acts, l') && l'.pc.Off? && Drained(l'.js, now)
    ensures Worked(l.js.job, l.js.rows, l'.js.job, l'.js.rows, now)
  {
    hide JobInv, Worked;
    RunWorks(l, l', acts, now);
  }

  /** The job is closed by its counters and nothing is left to send. */
  ghost predicate Drained(js: JobState, now: int) {
    && js.job.finishedAt == Some(now)
    && js.job.status == (if js.job.dlqCount > 0 then CompletedWithFailures else Completed)
    && forall i :: 0 <= i < |js.rows| ==> js.rows[i].status != Pending
  }

  /** The status check at the head of the loop. */
  lemma StatusStepIs(l: Local)
    requires l.pc.CheckStatus?
    ensures Enabled(l, ReadStatus)
    ensures Step(l, ReadStatus) == Local(l.js, if l.js.job.status.JobRunning? then Fetch else Off)
  {
  }

  /** The batch fetch. */
  lemma FetchStepIs(l: Local)
    requires l.pc.Fetch?
    ensures Enabled(l, FetchBatch)
    ensures var l', batch := Step(l, FetchBatch), PendingBatch(l.js.rows, BATCH_SIZE);
      && l'.js.job == l.js.job && l'.js.rows == l.js.rows
      && l'.pc == if batch == [] then Pc.Drained else Walk(batch, 0)
  {
    hide PendingBatch;
  }

  /** The end of a batch. */
  lemma EndStepIs(l: Local)
    requires l.pc.Walk? && l.pc.pos == |l.pc.batch|
    ensures Enabled(l, EndBatch) && Step(l, EndBatch) == Local(l.js, CheckStatus)
  {
  }

  /** The body of the loop: status check, then batch and recipients. */
  method OnePass(db: Store, id: JobId, maxAttempts: nat, now: int,
                 ghost l0: Local, ghost acts0: seq<JobAction>, ghost l: Local)
    returns (done: bool, ghost acts: seq<JobAction>, ghost l': Local)
    requires Synced(db, id, l) && JobInv(l) && l.pc.CheckStatus?
    requires maxAttempts == l.js.job.AttemptCap()
    requires Ran(l0, acts0, l)
    modifies db
    ensures Synced(db, id, l') && OthersKept(db, id) && JobInv(l')
    ensures Ran(l0, acts, l') && Rank(l') < Rank(l)
    ensures if done then l'.pc.Off? else l'.pc.CheckStatus? && SameRun(l, l')
    ensures !l.js.job.status.JobRunning? ==> done && l'.js == l.js
    ensures done && l.js.job.status.JobRunning? ==> Drained(l'.js, now)
  {
    hide JobInv, Rank, Ran, Step, Enabled, Job.AttemptCap, Drained;
    done := false;
    var running := db.jobs[id].status.JobRunning?;
    StatusStepIs(l);
    acts, l' := Takes(l0, acts0, l, ReadStatus);
    if !running {
      return true, acts, l';
    }
    done, acts, l' := OneBatch(db, id, maxAttempts, now, l0, acts, l');
  }

  /** The rest of the body once the job is known to be running. */
  method OneBatch(db: Store, id: JobId, maxAttempts: nat, now: int,
                  ghost l0: Local, ghost acts0: seq<JobAction>, ghost l: Local)
    returns (done: bool, ghost acts: seq<JobAction>, ghost l': Local)
    requires Synced(db, id, l) && JobInv(l) && l.pc.Fetch?
    requires maxAttempts == l.js.job.AttemptCap()
    requires Ran(l0, acts0, l)
    modifies db
    ensures Synced(db, id, l') && OthersKept(db, id) && JobInv(l')
    ensures Ran(l0, acts, l') && Rank(l') < Rank(l)
    ensures if done then l'.pc.Off? && Drained(l'.js, now) else l'.pc.CheckStatus? && SameRun(l, l')
  {
    hide JobInv, Rank, Ran, PendingBatch, Step, Enabled, Job.AttemptCap;
    var batch := db.PendingRecipients(id, BATCH_SIZE);
    NonePending(l);
    FetchStepIs(l);
    acts, l' := Takes(l0, acts0, l, FetchBatch);
    if |batch| == 0 {
      acts, l' := Finalize(db, id, now, l0, acts, l');
      done := true;
    } else {
      acts, l' := WholeBatch(db, id, batch, maxAttempts, l0, acts, l');
      done := false;
    }
  }

  /** The recipients of a batch, and back to the head of the loop. */
  method WholeBatch(db: Store, id: JobId, batch: seq<Snap>, maxAttempts: nat,
                    ghost l0: Local, ghost acts0: seq<JobAction>, ghost l: Local)
    returns (ghost acts: seq<JobAction>, ghost l': Local)
    requires Synced(db, id, l) && JobInv(l) && l.pc == Walk(batch, 0)
    requires maxAttempts == l.js.job.AttemptCap()
    requires Ran(l0, acts0, l)
    modifies db
    ensures Synced(db, id, l') && OthersKept(db, id) && JobInv(l') && l'.pc.CheckStatus?
    ensures Ran(l0, acts, l') && Rank(l') < Rank(l) && SameRun(l, l')
  {
    hide JobInv, Rank, Ran, Step, Enabled, Job.AttemptCap;
    acts, l' := WalkBatch(db, id, batch, maxAttempts, l0, acts0, l);
    EndStepIs(l');
    acts, l' := Takes(l0, acts, l', EndBatch);
  }

  lemma RankIsNat(l: Local)
    requires JobInv(l)
    ensures Rank(l) >= 0
  {
    RankNat(l);
  }

  lemma NonePending(l: Local)
    requires JobInv(l)
    ensures PendingBatch(l.js.rows, BATCH_SIZE) == [] ==>
      forall i :: 0 <= i < |l.js.rows| ==> l.js.rows[i].status != Pending
  {
    PendingBatchSound(l.js.rows, BATCH_SIZE);
  }

  /** The `for recipient in &batch` loop. */
  method WalkBatch(db: Store, id: JobId, batch: seq<Snap>, maxAttempts: nat,
                   ghost l0: Local, ghost acts0: seq<JobAction>, ghost l: Local)
    returns (ghost acts: seq<JobAction>, ghost l': Local)
    requires Synced(db, id, l) && JobInv(l) && l.pc == Walk(batch, 0)
    requires maxAttempts == l.js.job.AttemptCap()
    requires Ran(l0, acts0, l)
    modifies db
    ensures Synced(db, id, l') && OthersKept(db, id) && JobInv(l') && l'.pc == Walk(batch, |batch|)
    ensures Ran(l0, acts, l') && Rank(l') <= Rank(l) && SameRun(l, l')
  {
    hide JobInv, Rank, Ran, UpdateRow, PendingBatch, ApiStep, LoseStep;
    acts, l' := acts0, l;
    var pos := 0;
    while pos < |batch|
      invariant 0 <= pos <= |batch|
      invariant Synced(db, id, l') && OthersKept(db, id) && JobInv(l') && l'.pc == Walk(batch, pos)
      invariant Ran(l0, acts, l') && Rank(l') <= Rank(l) && SameRun(l, l')
    {
      acts, l' := SendOne(db, id, batch, pos, maxAttempts, l0, acts, l');
      pos := pos + 1;
    }
  }

  /** `finalize_job`: the status follows `dlq_count`. */
  method Finalize(db: Store, id: JobId, now: int, ghost l0: Local, ghost acts0: seq<JobAction>, ghost l: Local)
    returns (ghost acts: seq<JobAction>, ghost l': Local)
    requires Synced(db, id, l) && JobInv(l) && l.pc.Drained?
    requires Ran(l0, acts0, l)
    modifies db
    ensures Synced(db, id, l') && OthersKept(db, id) && JobInv(l') && l'.pc.Off?
    ensures Ran(l0, acts, l')
    ensures db.recipients == old(db.recipients) && Rank(l') < Rank(l)
    ensures db.jobs[id].dlqCount == old(db.jobs)[id].dlqCount
    ensures db.jobs[id].status == if db.jobs[id].dlqCount > 0 then CompletedWithFailures else Completed
    ensures db.jobs[id].finishedAt == Some(now)
  {
    hide JobInv, Rank, Ran, UpdateRow, PendingBatch, ApiStep, LoseStep;
    var final := if db.jobs[id].dlqCount > 0 then CompletedWithFailures else Completed;
    acts, l' := Takes(l0, acts0, l, ReadCounters);
    db.FinishJob(id, final, now);
    acts, l' := Takes(l0, acts, l', Finish(now));
  }
}
