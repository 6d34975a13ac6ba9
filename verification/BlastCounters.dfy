// Exact accounting of the job counters: each counter is a tally of the rows
// plus what retries wiped and what lost worker steps dropped, in every state.
module BlastCounters {
  import opened Wrappers
  import opened BlastModel
  import opened BlastRows
  import opened BlastMachine
  import opened BlastRowsInvariant

  ghost predicate CountersInv(l: Local) {
    var job, log, rows := l.js.job, l.js.log, l.js.rows;
    && job.sentCount + log.lostSent + One(l.pc.Flight? && l.pc.phase.SentSettled?) == Tally(SentRows, rows)
    && job.failedCount == Tally(AttemptsMade, rows) + log.wipedAttempts + log.lostFailed
                        + One(l.pc.Flight? && l.pc.phase.FailedCounted?)
    && job.dlqCount + log.lostDlq + One(l.pc.Flight? && l.pc.phase.DlqSettled?)
        == Tally(DlqRows, rows) + log.requeuedRows
    && job.total == Tally(AcceptedRows, rows) + CountAccepted(l.js.inserting)
    && log.lostSent + log.lostFailed + log.lostDlq <= log.aborts
    && (log.requeues == 0 ==> log.requeuedRows == 0 && log.wipedAttempts == 0)
  }

  /** A dispatch whose outcome is in the worker's hands only. */
  ghost predicate OutcomeInHand(pc: Pc) {
    pc.Flight? && (pc.phase.Accepted? || pc.phase.Refused? || pc.phase.FailedCounted?)
  }

  /** Dispatches are paid for by attempts: each accepted or requeued row brings
      `cap` of them, and each settled dispatch uses one up. */
  ghost predicate BudgetInv(l: Local) {
    var log, rows, cap := l.js.log, l.js.rows, l.js.job.AttemptCap();
    && log.settled + Tally(AttemptsLeft(cap), rows) <= Grant(cap, Tally(AcceptedRows, rows) + log.requeuedRows)
    && log.dispatched == log.settled + log.lostDispatches + One(OutcomeInHand(l.pc))
    && log.lostDispatches <= log.aborts
  }

  lemma {:induction false} TallyUpdate(m: Measure, rows: seq<Row>, jid: Jid, status: RecipientStatus, attempts: nat,
                                       c: SetClause)
    requires Distinct(rows) && RowIs(rows, jid, status, attempts)
    ensures var r := Row(jid, status, attempts, None, None);
      Tally(m, UpdateRow(rows, jid, c)) + Weight(m, r) == Tally(m, rows) + Weight(m, ApplySet(r, c))
  {
    hide Tally, UpdateRow;
    var i :| 0 <= i < |rows| && rows[i].jid == jid && rows[i].status == status && rows[i].attempts == attempts;
    UpdateRowAt(rows, i, c);
    TallyReplace(m, rows, i, ApplySet(rows[i], c));
  }

  lemma {:induction false} UpdateTallies(l: Local, status: RecipientStatus, c: SetClause)
    requires RowsInv(l) && (l.pc.Walk? || l.pc.Flight?) && l.pc.pos < |l.pc.batch|
    requires RowIs(l.js.rows, l.pc.batch[l.pc.pos].jid, status, l.pc.batch[l.pc.pos].attempts)
    requires status == Pending || status == Sending
    ensures var rows, cap := l.js.rows, l.js.job.AttemptCap();
      var rows' := UpdateRow(rows, l.pc.batch[l.pc.pos].jid, c);
      && Tally(SentRows, rows') == Tally(SentRows, rows) + One(c.SetSent?)
      && Tally(DlqRows, rows') == Tally(DlqRows, rows) + One(c.SetDlq?)
      && Tally(AttemptsMade, rows') == Tally(AttemptsMade, rows) + One(c.SetRetry? || c.SetDlq?)
      && Tally(AcceptedRows, rows') == Tally(AcceptedRows, rows)
      && Tally(AttemptsLeft(cap), rows') + One(!c.SetSending?) <= Tally(AttemptsLeft(cap), rows)
  {
    hide Tally, UpdateRow;
    var s := l.pc.batch[l.pc.pos];
    var cap := l.js.job.AttemptCap();
    TallyUpdate(SentRows, l.js.rows, s.jid, status, s.attempts, c);
    TallyUpdate(DlqRows, l.js.rows, s.jid, status, s.attempts, c);
    TallyUpdate(AttemptsMade, l.js.rows, s.jid, status, s.attempts, c);
    TallyUpdate(AcceptedRows, l.js.rows, s.jid, status, s.attempts, c);
    TallyUpdate(AttemptsLeft(cap), l.js.rows, s.jid, status, s.attempts, c);
    assert s.attempts < cap by {
      var rows := l.js.rows;
      var i :| 0 <= i < |rows| && rows[i].jid == s.jid && rows[i].status == status && rows[i].attempts == s.attempts;
      assert RowOk(rows[i], cap);
    }
  }

  /** The statement of the worker's current batch step, if it writes a row. */
  function Clause(l: Local, a: JobAction): SetClause
    requires Enabled(l, a) && (a.MarkSending? || a.MarkSent? || a.MarkError?)
  {
    match a
    case MarkSending => SetSending
    case MarkSent => SetSent(l.pc.phase.messageId)
    case MarkError =>
      if l.pc.batch[l.pc.pos].attempts + 1 < l.js.job.AttemptCap() then SetRetry(l.pc.phase.error)
      else SetDlq(l.pc.phase.error)
  }

  predicate WritesRow(a: JobAction) { a.MarkSending? || a.MarkSent? || a.MarkError? }

  lemma {:induction false} ClauseTallies(l: Local, a: JobAction)
    requires RowsInv(l) && Enabled(l, a) && WritesRow(a)
    ensures Step(l, a).js.rows == UpdateRow(l.js.rows, l.pc.batch[l.pc.pos].jid, Clause(l, a))
    ensures var rows, cap := l.js.rows, l.js.job.AttemptCap();
      var rows', c := Step(l, a).js.rows, Clause(l, a);
      && Tally(SentRows, rows') == Tally(SentRows, rows) + One(c.SetSent?)
      && Tally(DlqRows, rows') == Tally(DlqRows, rows) + One(c.SetDlq?)
      && Tally(AttemptsMade, rows') == Tally(AttemptsMade, rows) + One(c.SetRetry? || c.SetDlq?)
      && Tally(AcceptedRows, rows') == Tally(AcceptedRows, rows)
      && Tally(AttemptsLeft(cap), rows') + One(!c.SetSending?) <= Tally(AttemptsLeft(cap), rows)
  {
    hide Tally, UpdateRow;
    if a.MarkSending? {
      SnapInRange(l);
      UpdateTallies(l, Pending, SetSending);
    } else {
      UpdateTallies(l, Sending, Clause(l, a));
    }
  }

  lemma {:induction false} BatchKeepsCounters(l: Local, a: JobAction)
    requires RowsInv(l) && Enabled(l, a) && !IsApi(a) && !a.Abort? && (l.pc.Walk? || l.pc.Flight?)
    requires CountersInv(l)
    ensures CountersInv(Step(l, a))
  {
    hide Tally, UpdateRow, RowsInv, Job.AttemptCap, PendingBatch, BulkUpdate, RequeuedJids, InsertRow;
    if WritesRow(a) {
      ClauseTallies(l, a);
    } else {
      assert Step(l, a).js.rows == l.js.rows;
    }
  }

  lemma {:induction false} BatchKeepsBudget(l: Local, a: JobAction)
    requires RowsInv(l) && Enabled(l, a) && !IsApi(a) && !a.Abort? && (l.pc.Walk? || l.pc.Flight?)
    requires BudgetInv(l)
    ensures BudgetInv(Step(l, a))
  {
    hide Tally, UpdateRow, RowsInv, Grant, PendingBatch, BulkUpdate, RequeuedJids, InsertRow;
    if WritesRow(a) {
      ClauseTallies(l, a);
    } else {
      assert Step(l, a).js.rows == l.js.rows;
    }
  }

  lemma {:induction false} LoopKeepsCounters(l: Local, a: JobAction)
    requires RowsInv(l) && Enabled(l, a) && !IsApi(a) && !a.Abort? && !l.pc.Walk? && !l.pc.Flight?
    requires CountersInv(l) && BudgetInv(l)
    ensures CountersInv(Step(l, a)) && BudgetInv(Step(l, a))
  {
    hide Tally, UpdateRow, BulkUpdate, PendingBatch, InsertRow, Grant, RequeuedJids, BatchStep, ApiStep;
    assert Step(l, a) == LoopStep(l, a);
    if a.ResetRows? {
      TallyReset(l.js.rows, l.js.job.AttemptCap());
    }
  }

  lemma {:induction false} StoreKeepsCounters(l: Local)
    requires RowsInv(l) && l.js.inserting != [] && CountersInv(l) && BudgetInv(l)
    ensures CountersInv(Step(l, StoreRow)) && BudgetInv(Step(l, StoreRow))
  {
    hide Tally;
    var n := l.js.inserting[0];
    var rows, cap := l.js.rows, l.js.job.AttemptCap();
    var r := Row(n.jid, if n.skipped then SkippedDup else Pending, 0, None, None);
    assert !HasJid(rows, n.jid);
    TallyAppend(SentRows, rows, r);
    TallyAppend(DlqRows, rows, r);
    TallyAppend(AttemptsMade, rows, r);
    TallyAppend(AcceptedRows, rows, r);
    TallyAppend(AttemptsLeft(cap), rows, r);
  }

  lemma {:induction false} NoFailedRows(l: Local)
    requires RowsInv(l)
    ensures Tally(DlqRows, l.js.rows) == Tally(Requeuable, l.js.rows)
  {
    forall i | 0 <= i < |l.js.rows| ensures Weight(DlqRows, l.js.rows[i]) == Weight(Requeuable, l.js.rows[i]) {
      assert RowOk(l.js.rows[i], l.js.job.AttemptCap());
    }
    TallySameRows(DlqRows, Requeuable, l.js.rows);
  }

  lemma {:induction false} TallySameRows(m: Measure, m': Measure, rows: seq<Row>)
    requires forall i :: 0 <= i < |rows| ==> Weight(m, rows[i]) == Weight(m', rows[i])
    ensures Tally(m, rows) == Tally(m', rows)
  {
    if rows != [] {
      TallySameRows(m, m', rows[1..]);
    }
  }

  lemma {:induction false} RequeueKeepsCounters(l: Local, a: JobAction)
    requires RowsInv(l) && Enabled(l, a) && a.RetryRequeue? && CountersInv(l) && BudgetInv(l)
    ensures CountersInv(Step(l, a)) && BudgetInv(Step(l, a))
  {
    hide Tally, UpdateRow, PendingBatch, InsertRow, RowsInv, Grant, RequeuedJids, Weight, BulkUpdate;
    var rows, cap := l.js.rows, l.js.job.AttemptCap();
    TallyRequeue(rows);
    TallyRequeueAttempts(rows, cap);
    NoFailedRows(l);
    GrantAdds(cap, Tally(AcceptedRows, rows) + l.js.log.requeuedRows, Tally(Requeuable, rows));
  }

  /** A lost step moves what was in hand to the lost counts. */
  lemma {:induction false} AbortKeepsCounters(l: Local)
    requires Enabled(l, Abort) && CountersInv(l) && BudgetInv(l)
    ensures CountersInv(Step(l, Abort)) && BudgetInv(Step(l, Abort))
  {
    hide Tally, UpdateRow, BulkUpdate, PendingBatch, InsertRow, Grant, RequeuedJids, BatchStep, LoopStep, ApiStep;
  }

  /** Cancels, status checks and reopens touch no tally. */
  lemma {:induction false} QuietKeepsCounters(l: Local, a: JobAction)
    requires Enabled(l, a) && IsApi(a) && !a.StoreRow? && !a.RetryRequeue?
    requires CountersInv(l) && BudgetInv(l)
    ensures CountersInv(Step(l, a)) && BudgetInv(Step(l, a))
  {
    hide Tally, UpdateRow, BulkUpdate, PendingBatch, InsertRow, Grant, RequeuedJids, BatchStep, LoopStep, LoseStep;
  }

  lemma {:induction false} StepKeepsCounters(l: Local, a: JobAction)
    requires RowsInv(l) && Enabled(l, a)
    requires CountersInv(l) && BudgetInv(l)
    ensures CountersInv(Step(l, a)) && BudgetInv(Step(l, a))
  {
    hide CountersInv, BudgetInv, RowsInv, Step;
    if a.StoreRow? {
      StoreKeepsCounters(l);
    } else if a.RetryRequeue? {
      RequeueKeepsCounters(l, a);
    } else if a.Abort? {
      AbortKeepsCounters(l);
    } else if IsApi(a) {
      QuietKeepsCounters(l, a);
    } else if l.pc.Walk? || l.pc.Flight? {
      BatchKeepsCounters(l, a);
      BatchKeepsBudget(l, a);
    } else {
      LoopKeepsCounters(l, a);
    }
  }
}
