// The results about blasts, over every run of the system from the empty
// database: any number of jobs and API calls, any interleaving, any lost steps.
module BlastTheorems {
  import opened BlastModel
  import opened BlastRows
  import opened BlastMachine
  import opened BlastRowsInvariant
  import opened BlastCounters
  import opened BlastProgress
  import opened BlastSafety

  /** The state a run reaches. */
  ghost function Reached(acts: seq<Action>): State
    requires IsRun(INITIAL, acts)
  {
    After(INITIAL, acts)
  }

  // ------------------------------------------------------------ rows and batch

  /** Attempt counts in every reachable state, against the maximum stored with the
      job (a stored zero counts as one), and the batch the worker holds: every
      recipient it has not reached is still as the snapshot says. */
  lemma {:induction false} AttemptsAndSnapshot(acts: seq<Action>, id: JobId)
    requires IsRun(INITIAL, acts) && id in Reached(acts).jobs
    ensures var l := View(Reached(acts), id);
      var max := l.js.job.maxAttempts;
      && (forall i :: 0 <= i < |l.js.rows| ==>
           var r := l.js.rows[i];
           && (r.status == Pending || r.status == Sending || r.status == Sent ==> r.attempts == 0 || r.attempts < max)
           && (r.status == Dlq <==> r.attempts > 0 && r.attempts >= max)
           && (r.status == Dlq ==> r.attempts == if max == 0 then 1 else max)
           && r.status != Failed)
      && (l.pc.Walk? || l.pc.Flight? ==>
           forall k :: l.pc.pos + (if l.pc.Walk? then 0 else 1) <= k < |l.pc.batch| ==>
             RowIs(l.js.rows, l.pc.batch[k].jid, Pending, l.pc.batch[k].attempts))
  {
    Reachable(acts);
    var l := View(Reached(acts), id);
    assert JobInv(l);
    forall i | 0 <= i < |l.js.rows| ensures RowOk(l.js.rows[i], l.js.job.AttemptCap()) {
    }
  }

  /** Once `sent`, a row keeps its status, its message id and everything else. */
  lemma {:induction false} SentIsForever(s: State, acts: seq<Action>, id: JobId, i: nat)
    requires Inv(s) && IsRun(s, acts)
    requires id in s.jobs && i < |s.jobs[id].rows| && s.jobs[id].rows[i].status == Sent
    ensures id in After(s, acts).jobs && i < |After(s, acts).jobs[id].rows|
    ensures After(s, acts).jobs[id].rows[i] == s.jobs[id].rows[i]
    decreases |acts|
  {
    if acts != [] {
      var a := acts[0];
      NextKeepsInv(s, a);
      if a.Act? && a.id == id {
        SentRowsFrozen(View(s, id), a.act, i);
      }
      SentIsForever(Next(s, a), acts[1..], id, i);
    }
  }

  // ------------------------------------------------------------------ counters

  /** Between two recipients of a job that lost no step, the counters are the
      tallies: `dlq_count` and `failed_count` also keep what retries took back. */
  lemma CountersExact(acts: seq<Action>, id: JobId)
    requires IsRun(INITIAL, acts) && id in Reached(acts).jobs
    requires !PcOf(Reached(acts), id).Flight? && Reached(acts).jobs[id].log.aborts == 0
    ensures var js := Reached(acts).jobs[id];
      && js.job.sentCount == Tally(SentRows, js.rows)
      && js.job.failedCount == Tally(AttemptsMade, js.rows) + js.log.wipedAttempts
      && js.job.dlqCount == Tally(DlqRows, js.rows) + js.log.requeuedRows
      && js.job.total == Tally(AcceptedRows, js.rows) + CountAccepted(js.inserting)
  {
    Reachable(acts);
    assert JobInv(View(Reached(acts), id));
  }

  /** In every reachable state, crashes included, each counter is off by no more
      than the steps lost, plus the one step the worker may be about to take. */
  lemma CountersDrift(acts: seq<Action>, id: JobId)
    requires IsRun(INITIAL, acts) && id in Reached(acts).jobs
    ensures var js := Reached(acts).jobs[id];
      && js.job.sentCount <= Tally(SentRows, js.rows) <= js.job.sentCount + js.log.aborts + 1
      && Tally(AttemptsMade, js.rows) + js.log.wipedAttempts <= js.job.failedCount
         <= Tally(AttemptsMade, js.rows) + js.log.wipedAttempts + js.log.aborts + 1
      && js.job.dlqCount <= Tally(DlqRows, js.rows) + js.log.requeuedRows <= js.job.dlqCount + js.log.aborts + 1
  {
    Reachable(acts);
    assert JobInv(View(Reached(acts), id));
  }

  // ------------------------------------------------------------------- closing

  /** What a closed job can leave behind, exactly: a row is `sending` iff a lost
      step stranded it, and `pending` iff it arrived after the last empty batch. */
  lemma ClosedJobRows(acts: seq<Action>, id: JobId, i: nat)
    requires IsRun(INITIAL, acts) && id in Reached(acts).jobs
    requires Finished(Reached(acts).jobs[id].job.status) && i < |Reached(acts).jobs[id].rows|
    ensures var js := Reached(acts).jobs[id];
      && (js.rows[i].status == Sending <==> js.rows[i].jid in js.log.stuck)
      && (js.rows[i].status == Pending <==> js.rows[i].jid in js.log.arrivals)
  {
    Reachable(acts);
    var l := View(Reached(acts), id);
    assert JobInv(l);
    assert !Working(l.pc);
  }

  /** The final status counts dlq settlements, not dlq rows: retried ones stay
      counted, ones whose counter bump was lost do not count. */
  lemma FinalStatusMeaning(acts: seq<Action>, id: JobId)
    requires IsRun(INITIAL, acts) && id in Reached(acts).jobs
    requires Finished(Reached(acts).jobs[id].job.status)
    ensures var js := Reached(acts).jobs[id];
      js.job.status == CompletedWithFailures <==> Tally(DlqRows, js.rows) + js.log.requeuedRows > js.log.lostDlq
  {
    Reachable(acts);
    var l := View(Reached(acts), id);
    assert JobInv(l);
    assert !Working(l.pc);
  }

  ghost predicate Clean(log: Ledger) {
    log.aborts == 0 && log.requeues == 0 && log.lateRows == 0
  }

  /** A job with no lost step, no retry and no row inserted after its claim ends
      as documented: nothing unsettled, `completed` iff every recipient was sent
      to or skipped, `completed_with_failures` iff one is in the dead-letter state. */
  lemma {:induction false} CleanJobCloses(acts: seq<Action>, id: JobId)
    requires IsRun(INITIAL, acts) && id in Reached(acts).jobs
    requires Finished(Reached(acts).jobs[id].job.status) && Clean(Reached(acts).jobs[id].log)
    ensures var js := Reached(acts).jobs[id];
      && (forall i :: 0 <= i < |js.rows| ==> js.rows[i].status != Pending && js.rows[i].status != Sending)
      && (js.job.status == Completed <==>
           forall i :: 0 <= i < |js.rows| ==> js.rows[i].status == Sent || js.rows[i].status == SkippedDup)
      && (js.job.status == CompletedWithFailures <==>
           exists i :: 0 <= i < |js.rows| && js.rows[i].status == Dlq)
  {
    hide Inv, Tally, IsRun, After;
    CleanRows(acts, id);
    FinalStatusMeaning(acts, id);
    CleanLedger(acts, id);
    DlqTally(Reached(acts).jobs[id].rows);
  }

  /** A clean job has no stuck or late row, and no failed one. */
  lemma {:induction false} CleanRows(acts: seq<Action>, id: JobId)
    requires IsRun(INITIAL, acts) && id in Reached(acts).jobs
    requires Finished(Reached(acts).jobs[id].job.status) && Clean(Reached(acts).jobs[id].log)
    ensures forall i :: 0 <= i < |Reached(acts).jobs[id].rows| ==>
      var st := Reached(acts).jobs[id].rows[i].status; st == Sent || st == SkippedDup || st == Dlq
  {
    hide IsRun, After, CountersInv, BudgetInv, CancelInv, DeliveryInv, SnapshotOk, InsertingOk, Distinct;
    Reachable(acts);
    var l := View(Reached(acts), id);
    assert JobInv(l);
    forall i | 0 <= i < |l.js.rows|
      ensures var st := l.js.rows[i].status; st == Sent || st == SkippedDup || st == Dlq
    {
      ClosedJobRows(acts, id, i);
      assert RowOk(l.js.rows[i], l.js.job.AttemptCap());
    }
  }

  /** A clean job requeued nothing and lost no counter bump. */
  lemma CleanLedger(acts: seq<Action>, id: JobId)
    requires IsRun(INITIAL, acts) && id in Reached(acts).jobs && Clean(Reached(acts).jobs[id].log)
    ensures var log := Reached(acts).jobs[id].log; log.requeuedRows == 0 && log.lostDlq == 0
  {
    hide IsRun, After, RowsInv, BudgetInv, StuckInv, StatusInv, DrainInv, CancelInv, DeliveryInv, Tally;
    Reachable(acts);
    assert JobInv(View(Reached(acts), id));
  }

  lemma DlqTally(rows: seq<Row>)
    ensures Tally(DlqRows, rows) > 0 <==> exists i :: 0 <= i < |rows| && rows[i].status == Dlq
  {
    TallyZero(DlqRows, rows);
    if i :| 0 <= i < |rows| && rows[i].status == Dlq {
      assert Weight(DlqRows, rows[i]) != 0;
    } else {
      assert forall i :: 0 <= i < |rows| ==> Weight(DlqRows, rows[i]) == 0;
    }
  }

  /** A stranded row stays `sending` until the job is claimed again and its rows
      are reset, however often the running job is resumed in between. */
  lemma {:induction false} StrandedUntilReclaimed(s: State, acts: seq<Action>, id: JobId, jid: Jid)
    requires Inv(s) && IsRun(s, acts) && id in s.jobs && jid in s.jobs[id].log.stuck
    requires Act(id, ResetRows) !in acts
    ensures id in After(s, acts).jobs && jid in After(s, acts).jobs[id].log.stuck
    ensures var rows := After(s, acts).jobs[id].rows;
      exists i :: 0 <= i < |rows| && rows[i].jid == jid && rows[i].status == Sending
    decreases |acts|
  {
    hide RowsInv, CountersInv, BudgetInv, StatusInv, DrainInv, DeliveryInv, CancelInv, Step, Enabled;
    if acts == [] {
      assert JobInv(View(s, id));
      assert HasJid(s.jobs[id].rows, jid);
      var i :| 0 <= i < |s.jobs[id].rows| && s.jobs[id].rows[i].jid == jid;
      assert s.jobs[id].rows[i].status == Sending;
    } else {
      var a := acts[0];
      NextKeepsInv(s, a);
      if a.Act? && a.id == id {
        StuckGrows(View(s, id), a.act);
      }
      StrandedUntilReclaimed(Next(s, a), acts[1..], id, jid);
    }
  }

  lemma StuckGrows(l: Local, a: JobAction)
    requires Enabled(l, a) && !a.ResetRows?
    ensures l.js.log.stuck <= Step(l, a).js.log.stuck
  {
    if !IsApi(a) && !a.Abort? {
      if l.pc.Walk? || l.pc.Flight? {
        assert Step(l, a) == BatchStep(l, a);
      } else {
        assert Step(l, a) == LoopStep(l, a);
      }
    }
  }

  // --------------------------------------------------------- sends and cancels

  lemma {:induction false} SettledWithinGrant(l: Local)
    requires RowsInv(l) && BudgetInv(l)
    ensures l.js.log.dispatched
         <= Grant(l.js.job.AttemptCap(), Tally(AcceptedRows, l.js.rows) + l.js.log.requeuedRows) + l.js.log.aborts
  {
    hide Grant, Tally;
    if OutcomeInHand(l.pc) {
      var s, rows, cap := l.pc.batch[l.pc.pos], l.js.rows, l.js.job.AttemptCap();
      var i :| 0 <= i < |rows| && rows[i].jid == s.jid && rows[i].status == Sending && rows[i].attempts == s.attempts;
      assert RowOk(rows[i], cap);
      TallyZero(AttemptsLeft(cap), rows);
      assert Weight(AttemptsLeft(cap), rows[i]) > 0;
    }
  }

  /** Total dispatches of a job: at most the stored maximum of attempts (one, if
      that is zero) for each accepted recipient and each requeued row, plus one for
      every lost step. */
  lemma {:induction false} DispatchesBounded(acts: seq<Action>, id: JobId)
    requires IsRun(INITIAL, acts) && id in Reached(acts).jobs
    ensures var js := Reached(acts).jobs[id];
      var max := if js.job.maxAttempts == 0 then 1 else js.job.maxAttempts;
      js.log.dispatched <= max * (js.job.total + js.log.requeuedRows) + js.log.aborts
  {
    hide Step, Allowed, Next, Tally, RowsInv, StuckInv, StatusInv, DrainInv, CancelInv, DeliveryInv;
    Reachable(acts);
    var l := View(Reached(acts), id);
    SettledWithinGrant(l);
    var n := Tally(AcceptedRows, l.js.rows) + l.js.log.requeuedRows;
    GrantAdds(l.js.job.AttemptCap(), n, l.js.job.total + l.js.log.requeuedRows - n);
    GrantIsProduct(l.js.job.AttemptCap(), l.js.job.total + l.js.log.requeuedRows);
  }

  /** A recipient is delivered to once, and again only when the outcome of an
      earlier success was lost before its row was settled. */
  lemma DeliveredOnce(acts: seq<Action>, id: JobId, jid: Jid)
    requires IsRun(INITIAL, acts) && id in Reached(acts).jobs
    ensures var l := View(Reached(acts), id);
      && l.js.log.delivered[jid] <= 1 + l.js.log.lostDelivered[jid]
      && |l.js.log.lostDelivered| <= l.js.log.aborts
      && (l.pc.Off? ==> (l.js.log.delivered[jid] > l.js.log.lostDelivered[jid] <==> IsSent(l.js.rows, jid)))
  {
    Reachable(acts);
    var l := View(Reached(acts), id);
    assert JobInv(l);
    assert !(AcceptedInHand(l.pc, jid) && IsSent(l.js.rows, jid));
  }

  lemma AtMostOneRunning(acts: seq<Action>, i: JobId, j: JobId)
    requires IsRun(INITIAL, acts) && Running(Reached(acts), i) && Running(Reached(acts), j)
    ensures i == j
  {
    Reachable(acts);
  }

  ghost predicate NoReopen(acts: seq<Action>, id: JobId) {
    forall k :: 0 <= k < |acts| && acts[k].Act? && acts[k].id == id ==> !acts[k].act.RetryReopen?
  }

  lemma {:induction false} DispatchedSinceCancel(s: State, acts: seq<Action>, id: JobId)
    requires Inv(s) && IsRun(s, acts) && NoReopen(acts, id)
    requires id in s.jobs && s.jobs[id].log.cancelStands
    ensures id in After(s, acts).jobs
    ensures var log, log' := s.jobs[id].log, After(s, acts).jobs[id].log;
      && log'.cancelStands
      && log'.dispatched - log.dispatched == log'.sinceCancel - log.sinceCancel
    decreases |acts|
  {
    hide RowsInv, CountersInv, BudgetInv, StuckInv, StatusInv, DrainInv, DeliveryInv, CancelInv, Step, Enabled;
    if acts != [] {
      var a := acts[0];
      NextKeepsInv(s, a);
      if a.Act? && a.id == id {
        assert JobInv(View(s, id));
        CancelStands(View(s, id), a.act);
      }
      assert forall k :: 0 <= k < |acts[1..]| ==> acts[1..][k] == acts[k + 1];
      DispatchedSinceCancel(Next(s, a), acts[1..], id);
    }
  }

  lemma CancelStands(l: Local, a: JobAction)
    requires Enabled(l, a) && CancelInv(l) && l.js.log.cancelStands && !a.RetryReopen?
    ensures var log, log' := l.js.log, Step(l, a).js.log;
      && log'.cancelStands
      && log'.dispatched - log.dispatched == log'.sinceCancel - log.sinceCancel
  {
    if !IsApi(a) && !a.Abort? {
      if l.pc.Walk? || l.pc.Flight? {
        assert Step(l, a) == BatchStep(l, a);
      } else {
        assert Step(l, a) == LoopStep(l, a);
      }
    }
  }

  /** After a cancel commits, and while no retry reopens the job, at most one
      more batch of it is dispatched. */
  lemma {:induction false} CancelBounds(acts: seq<Action>, id: JobId, session: string, now: int, more: seq<Action>)
    requires IsRun(INITIAL, acts) && id in Reached(acts).jobs
    requires var job := Reached(acts).jobs[id].job;
      job.session == session && (job.status.JobPending? || job.status.JobRunning?)
    requires IsRun(Next(Reached(acts), Act(id, Cancel(session, now))), more) && NoReopen(more, id)
    ensures var end := After(Next(Reached(acts), Act(id, Cancel(session, now))), more);
      && id in end.jobs
      && end.jobs[id].log.dispatched <= Reached(acts).jobs[id].log.dispatched + BATCH_SIZE
  {
    hide RowsInv, CountersInv, BudgetInv, StuckInv, StatusInv, DrainInv, DeliveryInv;
    Reachable(acts);
    var s := Reached(acts);
    var s' := Next(s, Act(id, Cancel(session, now)));
    NextKeepsInv(s, Act(id, Cancel(session, now)));
    assert s'.jobs[id].log.cancelStands && s'.jobs[id].log.sinceCancel == 0;
    DispatchedSinceCancel(s', more, id);
    InvOverRun(s', more);
    assert JobInv(View(After(s', more), id));
    RemainingIsNat(View(After(s', more), id));
  }

  lemma RemainingIsNat(l: Local)
    requires RowsInv(l)
    ensures Remaining(l.pc) >= 0
  {
  }
}
