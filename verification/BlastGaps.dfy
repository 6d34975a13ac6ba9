// Where the blast engine does less than its comments say: a run that shows each
// gap, and the exact condition under which a cancel or a retry survives the worker.
module BlastGaps {
  import opened Wrappers
  import opened BlastModel
  import opened BlastRows
  import opened BlastMachine
  import opened BlastRowsInvariant
  import opened BlastCounters
  import opened BlastProgress
  import opened BlastHalting
  import opened BlastSafety
  import opened BlastTheorems

  // ------------------------------------------------- building concrete runs

  type Others = map<JobId, JobState>

  /** A system with one job among others, and the worker on it or idle. */
  function Among(l: Local, id: JobId := 0, others: Others := map[]): State {
    State(others[id := l.js], if l.pc.Off? then Idle else On(id, l.pc))
  }

  ghost predicate At(run: seq<Action>, l: Local, id: JobId := 0, others: Others := map[]) {
    IsRun(INITIAL, run) && After(INITIAL, run) == Among(l, id, others)
  }

  /** One more step of the job. */
  lemma {:induction false} Go(run: seq<Action>, l: Local, a: JobAction, id: JobId := 0,
                              others: Others := map[]) returns (run': seq<Action>, l': Local)
    requires At(run, l, id, others) && Enabled(l, a)
    ensures At(run', l', id, others) && l' == Step(l, a) && run <= run'
  {
    l' := Step(l, a);
    assert View(Among(l, id, others), id) == l;
    assert others[id := l.js][id := l'.js] == others[id := l'.js];
    RunThen(INITIAL, run, Act(id, a));
    run' := run + [Act(id, a)];
  }

  function SampleJob(total: nat): Job {
    Job("s", true, 1, JobPending, total, 0, 0, 0, 0, None, 0, None, None)
  }

  /** A job for one recipient is created; its row is still to be inserted. */
  lemma {:induction false} Created(n: NewRow) returns (run: seq<Action>, l: Local)
    ensures At(run, l) && l.pc.Off? && l.js.inserting == [n] && l.js.rows == [] && l.js.retries == map[]
    ensures l.js.job == SampleJob(if n.skipped then 0 else 1) && l.js.log == EMPTY_LEDGER
  {
    var job := SampleJob(if n.skipped then 0 else 1);
    var a := CreateJob(0, job, [n]);
    assert CountAccepted([n]) == job.total;
    RunThen(INITIAL, [], a);
    run, l := [] + [a], Local(JobState(job, [], [n], map[], EMPTY_LEDGER), Off);
  }

  /** The job comes first: no other one is running, or pending and older. */
  predicate First(l: Local, id: JobId, others: Others) {
    forall o :: o in others && o != id ==>
      && !others[o].job.status.JobRunning?
      && (others[o].job.status.JobPending? ==> l.js.job.createdAt <= others[o].job.createdAt)
  }

  lemma {:induction false} Picks(run: seq<Action>, l: Local, id: JobId := 0,
                                 others: Others := map[]) returns (run': seq<Action>)
    requires At(run, l, id, others) && l.pc.Off? && l.js.job.status.JobPending? && l.js.job.Due(0)
    requires First(l, id, others)
    ensures At(run', Local(l.js, Selected), id, others) && run <= run'
  {
    RunThen(INITIAL, run, NothingRunning);
    RunThen(INITIAL, run + [NothingRunning], Pick(id, 0));
    run' := run + [NothingRunning] + [Pick(id, 0)];
  }

  /** The idle worker claims the pending job and reads its status. */
  lemma {:induction false} Claims(run: seq<Action>, l: Local, id: JobId := 0,
                                  others: Others := map[]) returns (run': seq<Action>, l': Local)
    requires At(run, l, id, others) && l.pc.Off? && l.js.job.status.JobPending? && l.js.job.Due(0)
    requires First(l, id, others) && l.js.job.bodyParses
    ensures At(run', l', id, others) && l'.pc.Fetch? && run <= run'
    ensures l'.js == l.js.(job := l.js.job.(status := JobRunning, startedAt := Some(0)),
                           rows := BulkUpdate(l.js.rows, ResetSending),
                           log := l.js.log.(claimed := true, stuck := {}))
  {
    hide At;
    run' := Picks(run, l, id, others);
    l' := Local(l.js, Selected);
    run', l' := Go(run', l', ClaimUpdate(0), id, others);
    run', l' := Go(run', l', ResetRows, id, others);
    run', l' := Go(run', l', CheckBody, id, others);
    run', l' := Go(run', l', ReadStatus, id, others);
  }

  /** The idle worker resumes the running job and reads its status. */
  lemma {:induction false} Resumes(run: seq<Action>, l: Local) returns (run': seq<Action>, l': Local)
    requires At(run, l) && l.pc.Off? && l.js.job.status.JobRunning? && l.js.job.bodyParses
    ensures At(run', l') && l' == Local(l.js, Fetch)
  {
    assert forall o :: o in Among(l).jobs ==> o == 0;
    RunThen(INITIAL, run, Resume(0));
    run', l' := run + [Resume(0)], Local(l.js, Begin);
    run', l' := Go(run', l', CheckBody);
    run', l' := Go(run', l', ReadStatus);
  }

  /** With nothing pending, the worker closes the job. */
  lemma {:induction false} Closes(run: seq<Action>, l: Local, id: JobId := 0,
                                  others: Others := map[]) returns (run': seq<Action>, l': Local)
    requires At(run, l, id, others) && l.pc.Fetch? && PendingBatch(l.js.rows, BATCH_SIZE) == []
    ensures At(run', l', id, others) && l'.pc.Off? && l'.js.rows == l.js.rows && run <= run'
    ensures l'.js.retries == l.js.retries && l'.js.inserting == l.js.inserting
    ensures l'.js.job == l.js.job.(finishedAt := Some(0),
                                   status := if l.js.job.dlqCount > 0 then CompletedWithFailures else Completed)
    ensures l'.js.log == l.js.log.(arrivals := {})
  {
    hide At;
    run', l' := Go(run, l, FetchBatch, id, others);
    run', l' := Go(run', l', ReadCounters, id, others);
    run', l' := Go(run', l', Finish(0), id, others);
  }

  /** The worker dispatches to the only pending recipient. */
  lemma {:induction false} Sends(run: seq<Action>, l: Local, o: Outcome, id: JobId := 0,
                                 others: Others := map[]) returns (run': seq<Action>, l': Local)
    requires At(run, l, id, others) && l.pc.Fetch? && |l.js.rows| == 1 && l.js.rows[0].status == Pending
    ensures var s := Snap(l.js.rows[0].jid, l.js.rows[0].attempts);
      && At(run', l', id, others) && run <= run'
      && l'.pc == Flight([s], 0, if o.Delivered? then Accepted(o.messageId) else Refused(o.error))
      && l'.js.rows == [l.js.rows[0].(status := Sending, lastError := None)]
      && l'.js.job == l.js.job && l'.js.retries == l.js.retries
      && l'.js.log.delivered == l.js.log.delivered + if o.Delivered? then multiset{s.jid} else multiset{}
  {
    hide At;
    var s := Snap(l.js.rows[0].jid, l.js.rows[0].attempts);
    assert PendingBatch(l.js.rows, BATCH_SIZE) == [s] by {
      assert l.js.rows[1..] == [];
    }
    run', l' := Go(run, l, FetchBatch, id, others);
    run', l' := Go(run', l', MarkSending, id, others);
    run', l' := Go(run', l', Dispatch(o), id, others);
  }

  // ---------------------------------------------------------------- the gaps

  /** `reset_sending_recipients` runs on a claim only. A message goes out, the
      worker loses the step and resumes the running job: the job closes as
      `completed` with its only recipient still `sending`. */
  lemma {:induction false} ResumeStrandsRow() returns (run: seq<Action>, l: Local)
    ensures At(run, l) && l.js.job.status == Completed && l.js.job.sentCount == 0
    ensures |l.js.rows| == 1 && l.js.rows[0].status == Sending && l.js.log.delivered[l.js.rows[0].jid] == 1
    ensures l.pc.Off? && l.js.job.session == "s" && l.js.rows[0].jid == 7
  {
    hide At;
    run, l := Created(NewRow(7, false));
    run, l := Go(run, l, StoreRow);
    run, l := Claims(run, l);
    run, l := Sends(run, l, Delivered("m"));
    run, l := Go(run, l, Abort);
    run, l := Resumes(run, l);
    assert l.js.rows[1..] == [];
    run, l := Closes(run, l);
  }

  /** Retry never lowers `dlq_count`: after a failed send and a successful retry,
      every row is `sent` and the job is `completed_with_failures`. */
  lemma {:induction false} RetriedJobKeepsFailure() returns (run: seq<Action>, l: Local)
    ensures At(run, l) && l.js.job.status == CompletedWithFailures
    ensures |l.js.rows| == 1 && l.js.rows[0].status == Sent
  {
    hide At;
    run, l := FailsOnce();
    run, l := Retries(run, l);
    run, l := Claims(run, l);
    run, l := Sends(run, l, Delivered("m"));
    run, l := SettlesSent(run, l);
    run, l := EndsDrained(run, l);
    run, l := Closes(run, l);
  }

  /** A job whose only send failed, about to fetch again. */
  lemma {:induction false} SendFails() returns (run: seq<Action>, l: Local)
    ensures At(run, l) && l.pc.Fetch? && PendingBatch(l.js.rows, BATCH_SIZE) == []
    ensures l.js.job.status.JobRunning? && l.js.job.dlqCount == 1 && l.js.job.session == "s"
    ensures l.js.job.bodyParses && l.js.job.sendAt.None? && l.js.retries == map[]
    ensures |l.js.rows| == 1 && l.js.rows[0].status == Dlq
  {
    hide At;
    run, l := Created(NewRow(7, false));
    run, l := Go(run, l, StoreRow);
    run, l := Claims(run, l);
    run, l := Sends(run, l, Rejected("e"));
    run, l := SettlesDlq(run, l);
    run, l := EndsDrained(run, l);
  }

  /** A job whose only send fails. */
  lemma {:induction false} FailsOnce() returns (run: seq<Action>, l: Local)
    ensures At(run, l) && l.pc.Off? && l.js.job.status == CompletedWithFailures && l.js.job.dlqCount == 1
    ensures l.js.job.bodyParses && l.js.job.sendAt.None? && l.js.retries == map[]
    ensures |l.js.rows| == 1 && l.js.rows[0].status == Dlq
  {
    hide At;
    run, l := SendFails();
    run, l := Closes(run, l);
  }

  /** The three statements of a retry call over the one dead-lettered row. */
  lemma {:induction false} Retries(run: seq<Action>, l: Local) returns (run': seq<Action>, l': Local)
    requires At(run, l) && !l.js.job.status.JobRunning? && l.js.retries == map[]
    requires |l.js.rows| == 1 && l.js.rows[0].status == Dlq
    ensures At(run', l') && l'.pc == l.pc && l'.js.retries == map[]
    ensures l'.js.job == l.js.job.(status := JobPending, finishedAt := None)
    ensures |l'.js.rows| == 1 && l'.js.rows[0].status == Pending
  {
    hide At;
    var row := l.js.rows[0];
    run', l' := Go(run, l, RetryCheck(1));
    assert Tally(Requeuable, l'.js.rows) == 1 by {
      assert l.js.rows[1..] == [];
    }
    run', l' := Go(run', l', RetryRequeue(1));
    assert l'.js.rows[0] == ApplyBulk(row, RequeueFailed);
    run', l' := Go(run', l', RetryReopen(1));
    assert l'.js.retries == map[];
  }

  /** The batch is over and no row is pending: back to an empty fetch. */
  lemma {:induction false} EndsDrained(run: seq<Action>, l: Local, id: JobId := 0,
                                       others: Others := map[]) returns (run': seq<Action>, l': Local)
    requires At(run, l, id, others) && l.pc.Walk? && l.pc.pos == |l.pc.batch| && l.js.job.status.JobRunning?
    requires |l.js.rows| == 1 && l.js.rows[0].status != Pending
    ensures At(run', l', id, others) && l' == Local(l.js, Fetch) && PendingBatch(l.js.rows, BATCH_SIZE) == []
    ensures run <= run'
  {
    hide At;
    run', l' := Go(run, l, EndBatch, id, others);
    run', l' := Go(run', l', ReadStatus, id, others);
    assert l.js.rows[1..] == [];
  }

  lemma {:induction false} SettlesDlq(run: seq<Action>, l: Local) returns (run': seq<Action>, l': Local)
    requires At(run, l) && l.pc.Flight? && l.pc.phase.Refused? && l.pc.pos == 0 && |l.pc.batch| == 1
    requires |l.js.rows| == 1 && l.js.rows[0].jid == l.pc.batch[0].jid
    requires l.pc.batch[0].attempts + 1 >= l.js.job.AttemptCap()
    ensures At(run', l') && l'.pc == Walk(l.pc.batch, 1) && l'.js.retries == l.js.retries
    ensures |l'.js.rows| == 1 && l'.js.rows[0].status == Dlq
    ensures l'.js.job == l.js.job.(failedCount := l.js.job.failedCount + 1, dlqCount := l.js.job.dlqCount + 1)
  {
    hide At;
    run', l' := Go(run, l, IncrFailed);
    run', l' := Go(run', l', MarkError);
    run', l' := Go(run', l', IncrDlq);
  }

  lemma {:induction false} SettlesSent(run: seq<Action>, l: Local, id: JobId := 0,
                                       others: Others := map[]) returns (run': seq<Action>, l': Local)
    requires At(run, l, id, others) && l.pc.Flight? && l.pc.phase.Accepted? && l.pc.pos == 0 && |l.pc.batch| == 1
    requires |l.js.rows| == 1 && l.js.rows[0].jid == l.pc.batch[0].jid
    ensures At(run', l', id, others) && l'.pc == Walk(l.pc.batch, 1) && run <= run'
    ensures |l'.js.rows| == 1 && l'.js.rows[0].status == Sent && l'.js.rows[0].jid == l.js.rows[0].jid
    ensures l'.js.log.delivered == l.js.log.delivered
    ensures l'.js.job == l.js.job.(sentCount := l.js.job.sentCount + 1)
  {
    hide At;
    run', l' := Go(run, l, MarkSent, id, others);
    run', l' := Go(run', l', IncrSent, id, others);
  }

  /** A job with nothing to send, just after its empty batch. */
  lemma {:induction false} FindsNothing() returns (run: seq<Action>, l: Local)
    ensures At(run, l) && l.pc.Drained?
    ensures l.js.job.status.JobRunning? && l.js.job.session == "s" && l.js.job.dlqCount == 0
  {
    hide At;
    run, l := Created(NewRow(7, true));
    run, l := Go(run, l, StoreRow);
    run, l := Claims(run, l);
    assert PendingBatch(l.js.rows, BATCH_SIZE) == [] by {
      assert l.js.rows[0].status == SkippedDup && l.js.rows[1..] == [];
    }
    run, l := Go(run, l, FetchBatch);
  }

  /** `finish_job` has no status guard: a cancel that commits after the empty
      batch is overwritten by `completed`. */
  lemma {:induction false} FinishOverwritesCancel() returns (before: seq<Action>, l: Local, run: seq<Action>, l': Local)
    ensures At(before, l) && l.js.job.status == Cancelled && l.js.log.cancelStands
    ensures At(run, l') && l'.js.job.status == Completed && before <= run
  {
    hide At;
    before, l := FindsNothing();
    before, l := Go(before, l, Cancel("s", 0));
    run, l' := Go(before, l, ReadCounters);
    run, l' := Go(run, l', Finish(0));
  }

  /** So is a retry: with the worker past its empty batch the job is cancelled and
      retried, which puts its row and the job back to pending; then the worker
      closes the job, and the row stays pending in it. */
  lemma {:induction false} FinishOverwritesRetry() returns (before: seq<Action>, l: Local, run: seq<Action>, l': Local)
    ensures At(before, l) && l.js.job.status.JobPending? && l.js.retries == map[]
    ensures |l.js.rows| == 1 && l.js.rows[0].status == Pending
    ensures At(run, l') && l'.pc.Off? && l'.js.job.status == CompletedWithFailures && l'.js.rows == l.js.rows
    ensures before <= run
  {
    hide At;
    before, l := SendFails();
    before, l := Go(before, l, FetchBatch);
    before, l := Go(before, l, Cancel("s", 0));
    before, l := Retries(before, l);
    run, l' := Go(before, l, ReadCounters);
    run, l' := Go(run, l', Finish(0));
  }

  /** The job row is stored before its recipients: claimed in between, the job
      closes empty, and its recipient then stays `pending` in a completed job. */
  lemma {:induction false} EarlyClaimClosesEmptyJob() returns (run: seq<Action>, l: Local)
    ensures At(run, l) && l.js.job.status == Completed && l.js.job.total == 1
    ensures |l.js.rows| == 1 && l.js.rows[0].status == Pending
  {
    hide At;
    run, l := Created(NewRow(7, false));
    run, l := Claims(run, l);
    run, l := Closes(run, l);
    var n := l.js.inserting[0];
    run, l := Go(run, l, StoreRow);
    assert l.js.rows == InsertRow([], n);
  }

  // -------------------------------- when a cancel or a reopen holds, exactly

  /** The worker has passed its last status check: it will write a final status. */
  ghost predicate PastLastCheck(l: Local) {
    match l.pc
    case Drained => true
    case Closing(_) => true
    case Fetch => forall i :: 0 <= i < |l.js.rows| ==> l.js.rows[i].status != Pending
    case BadBody => true
    case Begin => !l.js.job.bodyParses
    case Claimed => !l.js.job.bodyParses
    case _ => false
  }

  /** The two statuses a call commits that the worker is to respect. */
  predicate Committed(status: JobStatus) { status.Cancelled? || status.JobPending? }

  /** What else may move the job out of that status: a reopen, or a cancel or a claim. */
  predicate Supersedes(a: JobAction, status: JobStatus) {
    if status.Cancelled? then a.RetryReopen? else a.Cancel? || a.ClaimUpdate?
  }

  /** A worker step keeps the status, or writes over it past the last check. */
  lemma {:induction false} CommittedStep(l: Local, a: JobAction, status: JobStatus)
    requires JobInv(l) && IsWorker(a) && Enabled(l, a) && !Supersedes(a, status)
    requires l.js.job.status == status && Committed(status)
    ensures var l' := Step(l, a);
      || (l'.js.job.status == status && (PastLastCheck(l') <==> PastLastCheck(l)))
      || (l'.pc.Off? && l'.js.job.status != status && PastLastCheck(l))
  {
    hide Tally, UpdateRow, BulkUpdate, PendingBatch, InsertRow, RequeuedJids, RowsInv, CountersInv, BudgetInv, StuckInv,
      DrainInv, CancelInv, DeliveryInv, ApiStep, Job.AttemptCap;
    if a.FetchBatch? {
      PendingOrNone(l);
    } else if l.pc.Walk? || l.pc.Flight? {
      assert Step(l, a) == BatchStep(l, a);
    } else {
      assert Step(l, a) == LoopStep(l, a);
    }
  }

  /** The batch is empty iff no row is pending. */
  lemma PendingOrNone(l: Local)
    requires JobInv(l)
    ensures PendingBatch(l.js.rows, BATCH_SIZE) == [] <==>
      forall i :: 0 <= i < |l.js.rows| ==> l.js.rows[i].status != Pending
  {
    hide PendingBatch, SnapshotOk, InsertingOk, RowOk, CountersInv, BudgetInv, StuckInv, StatusInv, DrainInv, CancelInv,
      DeliveryInv;
    PendingBatchSound(l.js.rows, BATCH_SIZE);
    if PendingBatch(l.js.rows, BATCH_SIZE) != [] {
      var s := PendingBatch(l.js.rows, BATCH_SIZE)[0];
      assert RowIs(l.js.rows, s.jid, Pending, s.attempts);
    }
  }

  /** A job that is `cancelled` is still `cancelled` when the worker lets go of
      it, if and only if the worker had not passed its last status check. */
  lemma {:induction false} CancelHoldsIff(l: Local, acts: seq<JobAction>)
    requires JobInv(l) && l.js.job.status == Cancelled
    requires WorkerRun(l, acts) && WorkerEnd(l, acts).pc.Off?
    ensures WorkerEnd(l, acts).js.job.status == Cancelled <==> !PastLastCheck(l)
    decreases |acts|
  {
    hide JobInv, Step, Enabled, PastLastCheck;
    if acts != [] {
      var l' := Step(l, acts[0]);
      CommittedStep(l, acts[0], Cancelled);
      StepKeepsJobInv(l, acts[0]);
      if l'.js.job.status == Cancelled {
        CancelHoldsIff(l', acts[1..]);
      } else if acts[1..] != [] {
        OffIsOver(l', acts[1]);
        assert false;
      }
    } else {
      OffIsNotPast(l);
    }
  }

  lemma OffIsNotPast(l: Local)
    requires l.pc.Off?
    ensures !PastLastCheck(l)
  {
  }

  // ------------------------- the same over every run: crashes and API calls too

  /** Job `id` is in that status, and the worker will not write over it. */
  ghost predicate Safely(s: State, id: JobId, status: JobStatus) {
    id in s.jobs && s.jobs[id].job.status == status && !PastLastCheck(View(s, id))
  }

  /** No action of the run moves the job out of that status by design. */
  ghost predicate NotSuperseded(acts: seq<Action>, id: JobId, status: JobStatus) {
    forall k :: 0 <= k < |acts| && acts[k].Act? && acts[k].id == id ==> !Supersedes(acts[k].act, status)
  }

  /** A lost step or an API call that does not supersede it keeps the status, and
      takes no worker past its last check. */
  lemma {:induction false} DisturbanceKeepsStatus(l: Local, a: JobAction, status: JobStatus)
    requires Enabled(l, a) && (a.Abort? || IsApi(a)) && !Supersedes(a, status)
    requires l.js.job.status == status && Committed(status) && !PastLastCheck(l)
    ensures Step(l, a).js.job.status == status && !PastLastCheck(Step(l, a))
  {
    hide Tally, RequeuedJids;
    if l.pc.Fetch? && IsApi(a) {
      var i :| 0 <= i < |l.js.rows| && l.js.rows[i].status == Pending;
      assert i < |Step(l, a).js.rows| && Step(l, a).js.rows[i].status == Pending;
    }
  }

  lemma PickedIsNotPast(l: Local)
    requires l.pc.Selected?
    ensures !PastLastCheck(l)
  {
  }

  /** One action of the whole system. */
  lemma {:induction false} ActionKeepsStatus(s: State, a: Action, id: JobId, status: JobStatus)
    requires Inv(s) && Allowed(s, a) && Safely(s, id, status) && Committed(status)
    requires !(a.Act? && a.id == id && Supersedes(a.act, status))
    ensures Safely(Next(s, a), id, status)
  {
    hide JobInv, Step, Enabled, PastLastCheck, Supersedes;
    if a.Act? {
      ViewOfAct(s, a.id, a.act);
      if a.id == id {
        var l := View(s, id);
        if a.act.Abort? || IsApi(a.act) {
          DisturbanceKeepsStatus(l, a.act, status);
        } else {
          CommittedStep(l, a.act, status);
        }
      }
    } else if a.Pick? && a.id == id {
      PickedIsNotPast(View(Next(s, a), id));
    } else {
      assert View(Next(s, a), id) == View(s, id);
    }
  }

  lemma {:induction false} StatusIsKept(s: State, acts: seq<Action>, id: JobId, status: JobStatus)
    requires Inv(s) && IsRun(s, acts) && NotSuperseded(acts, id, status) && Safely(s, id, status) && Committed(status)
    ensures Safely(After(s, acts), id, status)
    decreases |acts|
  {
    hide Inv, Allowed, Next, Safely, Supersedes;
    if acts != [] {
      NextKeepsInv(s, acts[0]);
      ActionKeepsStatus(s, acts[0], id, status);
      assert forall k :: 0 <= k < |acts[1..]| ==> acts[1..][k] == acts[k + 1];
      StatusIsKept(Next(s, acts[0]), acts[1..], id, status);
    }
  }

  /** Over any run without a reopen, whatever crashes and calls it holds, a
      safely cancelled job stays so. */
  lemma {:induction false} CancelIsKept(s: State, acts: seq<Action>, id: JobId)
    requires Inv(s) && IsRun(s, acts) && NoReopen(acts, id) && Safely(s, id, Cancelled)
    ensures Safely(After(s, acts), id, Cancelled)
  {
    hide Inv, IsRun, After, Safely;
    StatusIsKept(s, acts, id, Cancelled);
  }

  /** What a worker past its last check does next. */
  function NextWrite(pc: Pc): JobAction {
    match pc
    case Claimed => ResetRows
    case Begin => CheckBody
    case BadBody => FailJob(0)
    case Fetch => FetchBatch
    case Drained => ReadCounters
    case _ => Finish(0)
  }

  /** Left to itself, a worker past its last check writes over the status. */
  lemma {:induction false} StatusIsOverwritten(s: State, id: JobId, status: JobStatus) returns (acts: seq<Action>)
    requires Inv(s) && id in s.jobs && s.jobs[id].job.status == status && Committed(status)
    requires PastLastCheck(View(s, id))
    ensures IsRun(s, acts) && NotSuperseded(acts, id, status)
    ensures id in After(s, acts).jobs && After(s, acts).jobs[id].job.status != status
    decreases Rank(View(s, id))
  {
    hide JobInv, Step, Rank;
    var l := View(s, id);
    var act := NextWrite(l.pc);
    var a := Act(id, act);
    InvHasRows(l);
    CommittedStep(l, act, status);
    RankDrops(l, act);
    RankNat(l);
    ViewOfAct(s, id, act);
    NextKeepsInv(s, a);
    if Step(l, act).js.job.status == status {
      var rest := StatusIsOverwritten(Next(s, a), id, status);
      acts := [a] + rest;
      assert acts[1..] == rest;
    } else {
      acts := [a];
      assert acts[1..] == [];
    }
  }

  /** A committed status holds over every run that does not supersede it, whatever
      crashes and calls it holds, if and only if the worker had not passed its
      last status check. */
  lemma {:induction false} StatusHoldsIff(s: State, id: JobId, status: JobStatus)
    requires Inv(s) && id in s.jobs && s.jobs[id].job.status == status && Committed(status)
    ensures (forall acts :: IsRun(s, acts) && NotSuperseded(acts, id, status) ==>
               id in After(s, acts).jobs && After(s, acts).jobs[id].job.status == status)
      <==> !PastLastCheck(View(s, id))
  {
    hide Inv, PastLastCheck, NotSuperseded, Committed;
    if PastLastCheck(View(s, id)) {
      var acts := StatusIsOverwritten(s, id, status);
    } else {
      forall acts | IsRun(s, acts) && NotSuperseded(acts, id, status)
        ensures id in After(s, acts).jobs && After(s, acts).jobs[id].job.status == status
      {
        StatusIsKept(s, acts, id, status);
      }
    }
  }

  /** A committed cancel is final, whatever crashes and calls but a reopen may
      follow, if and only if the worker had not passed its last status check. */
  lemma {:induction false} CancelIsFinalIff(s: State, id: JobId)
    requires Inv(s) && id in s.jobs && s.jobs[id].job.status == Cancelled
    ensures (forall acts :: IsRun(s, acts) && NoReopen(acts, id) ==>
               id in After(s, acts).jobs && After(s, acts).jobs[id].job.status == Cancelled)
      <==> !PastLastCheck(View(s, id))
  {
    hide Inv, PastLastCheck, IsRun, After;
    assert forall acts :: NoReopen(acts, id) <==> NotSuperseded(acts, id, Cancelled);
    StatusHoldsIff(s, id, Cancelled);
  }

  /** A reopened job stays pending until it is cancelled or claimed, whatever
      crashes and other calls follow, if and only if no worker had passed its last
      status check on it. */
  lemma {:induction false} ReopenHoldsIff(s: State, id: JobId)
    requires Inv(s) && id in s.jobs && s.jobs[id].job.status == JobPending
    ensures (forall acts :: IsRun(s, acts) && NotSuperseded(acts, id, JobPending) ==>
               id in After(s, acts).jobs && After(s, acts).jobs[id].job.status == JobPending)
      <==> !PastLastCheck(View(s, id))
  {
    hide Inv, PastLastCheck, IsRun, After;
    StatusHoldsIff(s, id, JobPending);
  }
}
