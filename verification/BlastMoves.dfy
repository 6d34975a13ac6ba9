// What an undisturbed worker makes of a job and its rows, from the start of
// `process_job` on: which rows it settles, which it leaves alone, and how the
// counters follow.
module BlastMoves {
  import opened Wrappers
  import opened BlastModel
  import opened BlastRows
  import opened BlastMachine
  import opened BlastRowsInvariant
  import opened BlastCounters
  import opened BlastProgress
  import opened BlastHalting

  /** What may become of a row under way: one that was not pending is not touched. */
  predicate RowMoves(was: Row, row: Row) {
    if was.status != Pending then row == was
    else
      && row.jid == was.jid && row.attempts >= was.attempts
      && match row.status
         case Pending => true
         case Sending => true
         case Sent => row.messageId.Some? && row.lastError == None
         case Dlq => row.lastError.Some?
         case _ => false
  }

  predicate RowsMove(was: seq<Row>, rows: seq<Row>) {
    |rows| == |was| && forall i :: 0 <= i < |rows| ==> RowMoves(was[i], rows[i])
  }

  /** Only the status, the finish time and the counters of a job move. */
  predicate JobMoves(was: Job, job: Job) {
    job == was.(status := job.status, finishedAt := job.finishedAt,
                sentCount := job.sentCount, failedCount := job.failedCount, dlqCount := job.dlqCount)
  }

  /** The history a worker step does not write. */
  predicate NothingLost(was: Ledger, log: Ledger) {
    && log.stuck == was.stuck && log.lostSent == was.lostSent && log.lostFailed == was.lostFailed
    && log.lostDlq == was.lostDlq && log.wipedAttempts == was.wipedAttempts && log.requeuedRows == was.requeuedRows
  }

  ghost predicate Moved(l0: Local, l: Local) {
    && !l.pc.Selected? && !l.pc.Claimed?
    && RowsMove(l0.js.rows, l.js.rows) && JobMoves(l0.js.job, l.js.job) && NothingLost(l0.js.log, l.js.log)
  }

  /** At the start nobody holds a row: those `sending` are stuck. */
  lemma SendingIsStuck(l: Local)
    requires JobInv(l) && !l.pc.Flight?
    ensures forall i :: 0 <= i < |l.js.rows| ==>
      (l.js.rows[i].status == Sending <==> l.js.rows[i].jid in l.js.log.stuck)
  {
    hide RowsInv, CountersInv, BudgetInv, StatusInv, DrainInv, CancelInv, DeliveryInv;
  }

  /** The row the worker writes was pending at the start. */
  lemma {:induction false} HeldWasPending(l0: Local, l: Local, a: JobAction) returns (j: nat)
    requires JobInv(l0) && !l0.pc.Flight? && JobInv(l) && Moved(l0, l) && Enabled(l, a) && WritesRow(a)
    ensures j < |l.js.rows| && l.js.rows[j].jid == l.pc.batch[l.pc.pos].jid && l0.js.rows[j].status == Pending
    ensures Step(l, a).js.rows == l.js.rows[j := ApplySet(l.js.rows[j], Clause(l, a))]
  {
    hide CountersInv, BudgetInv, StatusInv, DrainInv, CancelInv, DeliveryInv, RowOk, SnapshotOk, InsertingOk;
    SendingIsStuck(l0);
    InvHasRows(l);
    j := RowInHand(l, a);
    ClauseEffect(l, a);
    UpdateRowAt(l.js.rows, j, Clause(l, a));
    assert RowMoves(l0.js.rows[j], l.js.rows[j]);
  }

  lemma {:induction false} WriteMoves(l0: Local, l: Local, a: JobAction)
    requires JobInv(l0) && !l0.pc.Flight? && JobInv(l) && Moved(l0, l) && Enabled(l, a) && WritesRow(a)
    ensures Moved(l0, Step(l, a))
  {
    hide JobInv, UpdateRow;
    var j := HeldWasPending(l0, l, a);
    var l' := Step(l, a);
    assert RowMoves(l0.js.rows[j], l.js.rows[j]);
    assert l' == BatchStep(l, a);
    assert RowsMove(l0.js.rows, l'.js.rows);
  }

  lemma {:induction false} StepMoves(l0: Local, l: Local, a: JobAction)
    requires JobInv(l0) && !l0.pc.Flight? && JobInv(l) && Moved(l0, l) && Enabled(l, a) && IsWorker(a)
    ensures Moved(l0, Step(l, a))
  {
    hide JobInv, UpdateRow, PendingBatch, BulkUpdate, RowsMove;
    if WritesRow(a) {
      WriteMoves(l0, l, a);
    } else if l.pc.Walk? || l.pc.Flight? {
      assert Step(l, a) == BatchStep(l, a);
    } else {
      assert Step(l, a) == LoopStep(l, a);
    }
  }

  lemma {:induction false} RunMoves(l0: Local, l: Local, acts: seq<JobAction>)
    requires JobInv(l0) && !l0.pc.Flight? && JobInv(l) && Moved(l0, l) && WorkerRun(l, acts)
    ensures Moved(l0, WorkerEnd(l, acts)) && JobInv(WorkerEnd(l, acts))
    decreases |acts|
  {
    hide JobInv, Step, Enabled, Moved;
    if acts != [] {
      StepMoves(l0, l, acts[0]);
      StepKeepsJobInv(l, acts[0]);
      RunMoves(l0, Step(l, acts[0]), acts[1..]);
    }
  }

  // ------------------------------------------------------------- at the end

  /** What `process_job` makes of a running job and its rows: with a bad body it
      fails the job; else every pending row ends sent, or dead-lettered with exactly
      the stored maximum of attempts (one, if that is zero), every other row is as
      it was, and each counter has grown by what was settled. */
  ghost predicate Worked(job: Job, rows: seq<Row>, job': Job, rows': seq<Row>, now: int) {
    if !job.bodyParses then job' == job.(status := JobFailed, finishedAt := Some(now)) && rows' == rows
    else
      && job' == job.(status := if job'.dlqCount > 0 then CompletedWithFailures else Completed,
                      finishedAt := Some(now), sentCount := job'.sentCount,
                      failedCount := job'.failedCount, dlqCount := job'.dlqCount)
      && job'.sentCount + Tally(SentRows, rows) == job.sentCount + Tally(SentRows, rows')
      && job'.failedCount + Tally(AttemptsMade, rows) == job.failedCount + Tally(AttemptsMade, rows')
      && job'.dlqCount + Tally(DlqRows, rows) == job.dlqCount + Tally(DlqRows, rows')
      && |rows'| == |rows|
      && forall i :: 0 <= i < |rows| ==>
           if rows[i].status != Pending then rows'[i] == rows[i]
           else rows'[i].jid == rows[i].jid && RowWorked(rows[i].attempts, job.maxAttempts, rows'[i])
  }

  predicate RowWorked(before: nat, maxAttempts: nat, row: Row) {
    || (row.status == Sent && row.messageId.Some? && row.lastError == None
        && before <= row.attempts && (row.attempts == 0 || row.attempts < maxAttempts))
    || (row.status == Dlq && row.lastError.Some? && row.attempts == if maxAttempts == 0 then 1 else maxAttempts)
  }

  ghost predicate Counted(l: Local) {
    var job, log, rows := l.js.job, l.js.log, l.js.rows;
    && job.sentCount + log.lostSent == Tally(SentRows, rows)
    && job.failedCount == Tally(AttemptsMade, rows) + log.wipedAttempts + log.lostFailed
    && job.dlqCount + log.lostDlq == Tally(DlqRows, rows) + log.requeuedRows
  }

  lemma CountedOutOfFlight(l: Local)
    requires JobInv(l) && !l.pc.Flight?
    ensures Counted(l)
  {
    hide RowsInv, BudgetInv, StuckInv, StatusInv, DrainInv, CancelInv, DeliveryInv;
  }

  /** With the worker gone and nothing pending, each pending row is settled. */
  lemma {:induction false} RowsWorked(l0: Local, l: Local)
    requires JobInv(l0) && !l0.pc.Flight? && JobInv(l) && l.pc.Off? && Moved(l0, l)
    requires forall i :: 0 <= i < |l.js.rows| ==> l.js.rows[i].status != Pending
    ensures |l.js.rows| == |l0.js.rows|
    ensures forall i :: 0 <= i < |l0.js.rows| ==>
      if l0.js.rows[i].status != Pending then l.js.rows[i] == l0.js.rows[i]
      else
        && l.js.rows[i].jid == l0.js.rows[i].jid
        && RowWorked(l0.js.rows[i].attempts, l0.js.job.maxAttempts, l.js.rows[i])
  {
    hide JobInv;
    SendingIsStuck(l0);
    SendingIsStuck(l);
    InvHasRows(l);
    forall i | 0 <= i < |l0.js.rows| && l0.js.rows[i].status == Pending
      ensures l.js.rows[i].jid == l0.js.rows[i].jid
           && RowWorked(l0.js.rows[i].attempts, l0.js.job.maxAttempts, l.js.rows[i])
    {
      assert RowMoves(l0.js.rows[i], l.js.rows[i]) && RowOk(l.js.rows[i], l.js.job.AttemptCap());
    }
  }

  /** A finished run of a job with a good body has worked it off. */
  lemma {:induction false} RunWorks(l0: Local, l: Local, acts: seq<JobAction>, now: int)
    requires JobInv(l0) && l0.pc.Begin? && l0.js.job.bodyParses
    requires WorkerRun(l0, acts) && WorkerEnd(l0, acts) == l && l.pc.Off?
    requires l.js.job.status == (if l.js.job.dlqCount > 0 then CompletedWithFailures else Completed)
    requires l.js.job.finishedAt == Some(now)
    requires forall i :: 0 <= i < |l.js.rows| ==> l.js.rows[i].status != Pending
    ensures Worked(l0.js.job, l0.js.rows, l.js.job, l.js.rows, now)
  {
    hide JobInv, Tally, RowWorked, Step, Enabled;
    assert Moved(l0, l0);
    RunMoves(l0, l0, acts);
    RowsWorked(l0, l);
    CountedOutOfFlight(l0);
    CountedOutOfFlight(l);
  }
}
