// The life cycle of a job, step by step: which step moves its status from where
// to where, and what the three statements of a retry do when they interleave.
module BlastLifeCycle {
  import opened Wrappers
  import opened BlastModel
  import opened BlastRows
  import opened BlastMachine
  import opened BlastRowsInvariant
  import opened BlastCounters
  import opened BlastProgress
  import opened BlastSafety
  import opened BlastStore
  import opened BlastTheorems

  /** The moves of a status, by the step that makes them. */
  predicate StatusMove(a: JobAction, before: JobStatus, after: JobStatus, bodyParses: bool) {
    match a
    case ClaimUpdate(_) => before == JobPending && after == JobRunning
    case Cancel(_, _) => (before == JobPending || before == JobRunning) && after == Cancelled
    case RetryReopen(_) => before != JobRunning && after == JobPending
    case Finish(_) => bodyParses && (after == Completed || after == CompletedWithFailures)
    case FailJob(_) => !bodyParses && after == JobFailed
    case _ => false
  }

  lemma {:induction false} JobStatusMoves(l: Local, a: JobAction)
    requires JobInv(l) && Enabled(l, a)
    ensures Step(l, a).js.job.status != l.js.job.status ==>
      StatusMove(a, l.js.job.status, Step(l, a).js.job.status, l.js.job.bodyParses)
  {
    hide Tally, UpdateRow, BulkUpdate, PendingBatch, InsertRow, RequeuedJids, RowsInv, CountersInv, BudgetInv, StuckInv,
      DrainInv, CancelInv, DeliveryInv, Job.AttemptCap;
    if !IsApi(a) && !a.Abort? {
      if l.pc.Walk? || l.pc.Flight? {
        assert Step(l, a) == BatchStep(l, a);
      } else {
        assert Step(l, a) == LoopStep(l, a);
      }
    }
  }

  /** In every reachable state the status of a job changes by five steps only: a
      claim makes a pending job running; a cancel ends a pending or running one; a
      reopen never touches a running one; the end of a run writes a completed status,
      or `failed` for a bad body. */
  lemma {:induction false} StatusMovesOnlySo(acts: seq<Action>, a: Action, id: JobId)
    requires IsRun(INITIAL, acts) && Allowed(Reached(acts), a) && id in Reached(acts).jobs
    ensures id in Next(Reached(acts), a).jobs
    ensures var before, after := Reached(acts).jobs[id].job, Next(Reached(acts), a).jobs[id].job;
      after.status != before.status ==>
        a.Act? && a.id == id && StatusMove(a.act, before.status, after.status, before.bodyParses)
  {
    hide JobInv, Step, Enabled, IsRun, After;
    Reachable(acts);
    if a.Act? && a.id == id {
      JobStatusMoves(View(Reached(acts), id), a.act);
    }
  }

  /** The requeue statement of a retry, whatever happened since its status check:
      exactly the failed and dead-lettered rows start over, and the call goes on to
      reopen the job iff there was one; a reopen ends the call and clears the finish
      time, unless the job is running by then. */
  lemma {:induction false} RetrySteps(l: Local, call: CallId)
    ensures Enabled(l, RetryRequeue(call)) ==>
      var l' := Step(l, RetryRequeue(call));
      RowsRequeued(l.js.rows, l'.js.rows) && l'.js.job == l.js.job && (call in l'.js.retries <==> Retryable(l.js.rows))
    ensures Enabled(l, RetryReopen(call)) ==>
      var l' := Step(l, RetryReopen(call));
      && l'.js.rows == l.js.rows && call !in l'.js.retries
      && l'.js.job == if l.js.job.status == JobRunning then l.js.job
                      else l.js.job.(status := JobPending, finishedAt := None)
  {
    hide Tally, RequeuedJids;
    TallyZero(Requeuable, l.js.rows);
    var rows := l.js.rows;
    if Retryable(rows) {
      var i :| 0 <= i < |rows| && (rows[i].status == Dlq || rows[i].status == Failed);
      assert Weight(Requeuable, rows[i]) != 0;
    }
    assert forall i :: 0 <= i < |rows| ==>
      (Weight(Requeuable, rows[i]) != 0 <==> rows[i].status == Dlq || rows[i].status == Failed);
  }
}
