// What every step keeps about the job status: which rows can be unsettled when
// a job closes, what its final status means, how far a cancelled job still
// sends, and how often one recipient is delivered to.
module BlastProgress {
  import opened Wrappers
  import opened BlastModel
  import opened BlastRows
  import opened BlastMachine
  import opened BlastRowsInvariant
  import opened BlastCounters

  ghost predicate InHand(pc: Pc, jid: Jid) {
    Unsettled(pc) && pc.pos < |pc.batch| && pc.batch[pc.pos].jid == jid
  }

  /** A row is `sending` exactly while the worker holds it, or when a lost step
      left it there and no claim has reset it since. */
  ghost predicate StuckInv(l: Local) {
    var rows, log := l.js.rows, l.js.log;
    && (forall i :: 0 <= i < |rows| ==>
         (rows[i].status == Sending <==> rows[i].jid in log.stuck || InHand(l.pc, rows[i].jid)))
    && (forall jid :: jid in log.stuck ==> HasJid(rows, jid) && !InHand(l.pc, jid))
    && (log.aborts == 0 ==> log.stuck == {})
  }

  ghost predicate Working(pc: Pc) { !pc.Off? && !pc.Selected? }

  ghost predicate Finished(status: JobStatus) { status.Completed? || status.CompletedWithFailures? }

  ghost predicate StatusInv(l: Local) {
    var job, log, pc := l.js.job, l.js.log, l.pc;
    && (Working(pc) ==> log.claimed && (job.status.JobRunning? || job.status.JobPending? || job.status.Cancelled?))
    && (Finished(job.status) || job.status.JobRunning? ==> log.claimed)
    && (job.status.Completed? ==> job.dlqCount == 0)
    && (job.status.CompletedWithFailures? ==> job.dlqCount > 0)
    && (pc.Closing? ==> pc.final == if job.dlqCount > 0 then CompletedWithFailures else Completed)
    && (job.status.JobFailed? || pc.BadBody? ==> !job.bodyParses)
    && (Finished(job.status) || (Working(pc) && !pc.Claimed? && !pc.Begin? && !pc.BadBody?) ==> job.bodyParses)
  }

  /** From the empty batch to the next reopen. */
  ghost predicate Quiet(l: Local) { l.pc.Drained? || l.pc.Closing? || Finished(l.js.job.status) }

  /** After the empty batch, the pending rows are exactly those that arrived since. */
  ghost predicate DrainInv(l: Local) {
    var rows, log := l.js.rows, l.js.log;
    && (forall jid :: jid in log.arrivals ==> HasJid(rows, jid))
    && (Quiet(l) ==> forall i :: 0 <= i < |rows| ==> (rows[i].status == Pending <==> rows[i].jid in log.arrivals))
    && (Quiet(l) && log.lateRows == 0 && log.requeues == 0 ==> log.arrivals == {})
  }

  /** Dispatches the worker may still issue before it re-reads the status. */
  function Remaining(pc: Pc): int {
    match pc
    case Fetch => BATCH_SIZE
    case Walk(batch, pos) => |batch| - pos
    case Flight(batch, pos, phase) => |batch| - pos - One(!phase.Marked?)
    case _ => 0
  }

  ghost predicate CancelInv(l: Local) {
    l.js.log.cancelStands ==>
      && !l.js.job.status.JobPending? && !l.js.job.status.JobRunning?
      && l.js.log.sinceCancel + Remaining(l.pc) <= BATCH_SIZE
  }

  predicate IsSent(rows: seq<Row>, jid: Jid) {
    exists i :: 0 <= i < |rows| && rows[i].jid == jid && rows[i].status == Sent
  }

  ghost predicate AcceptedInHand(pc: Pc, jid: Jid) {
    InHand(pc, jid) && pc.phase.Accepted?
  }

  /** Successful dispatches of a recipient: one if its row is `sent`, plus those
      whose outcome a lost step dropped. */
  ghost predicate DeliveryInv(l: Local) {
    && (forall jid :: l.js.log.delivered[jid]
         == One(IsSent(l.js.rows, jid)) + One(AcceptedInHand(l.pc, jid)) + l.js.log.lostDelivered[jid])
    && |l.js.log.lostDelivered| <= l.js.log.aborts
  }

  // --------------------------------------------------------------- stuck rows

  lemma HasJidKept(rows: seq<Row>, rows': seq<Row>, jid: Jid)
    requires HasJid(rows, jid) && |rows| <= |rows'|
    requires forall i :: 0 <= i < |rows| ==> rows'[i].jid == rows[i].jid
    ensures HasJid(rows', jid)
  {
    var i :| 0 <= i < |rows| && rows[i].jid == jid;
    assert rows'[i].jid == jid;
  }

  lemma {:induction false} KeysAfter(l: Local, a: JobAction)
    requires Enabled(l, a)
    ensures var rows, rows' := l.js.rows, Step(l, a).js.rows;
      |rows| <= |rows'| && forall i :: 0 <= i < |rows| ==> rows'[i].jid == rows[i].jid
  {
    if WritesRow(a) {
      ClauseEffect(l, a);
    } else if !IsApi(a) && !a.ResetRows? {
      assert Step(l, a).js.rows == l.js.rows;
    }
  }

  lemma {:induction false} ClauseEffect(l: Local, a: JobAction)
    requires Enabled(l, a) && WritesRow(a)
    ensures var l', jid := Step(l, a), l.pc.batch[l.pc.pos].jid;
      && l'.js.rows == UpdateRow(l.js.rows, jid, Clause(l, a))
      && l'.js.log.stuck == l.js.log.stuck && l'.js.log.aborts == l.js.log.aborts
      && (forall o :: InHand(l.pc, o) || InHand(l'.pc, o) ==> o == jid)
      && (InHand(l'.pc, jid) <==> a.MarkSending?)
      && (Clause(l, a).SetSending? <==> a.MarkSending?)
  {
    assert Step(l, a) == BatchStep(l, a);
  }

  /** One row changes hands: it becomes `sending` and is held, or is settled and
      let go; the others stay as they were. */
  lemma {:induction false} StuckAfterUpdate(rows: seq<Row>, j: nat, c: SetClause, stuck: set<Jid>, pc: Pc, pc': Pc)
    requires Distinct(rows) && j < |rows| && rows[j].jid !in stuck
    requires forall i :: 0 <= i < |rows| ==>
      (rows[i].status == Sending <==> rows[i].jid in stuck || InHand(pc, rows[i].jid))
    requires forall jid :: jid != rows[j].jid ==> !InHand(pc, jid) && !InHand(pc', jid)
    requires InHand(pc', rows[j].jid) <==> c.SetSending?
    ensures var rows' := UpdateRow(rows, rows[j].jid, c);
      forall i :: 0 <= i < |rows'| ==>
        (rows'[i].status == Sending <==> rows'[i].jid in stuck || InHand(pc', rows'[i].jid))
  {
    UpdateRowAt(rows, j, c);
  }

  lemma {:induction false} BatchKeepsStuck(l: Local, a: JobAction)
    requires RowsInv(l) && Enabled(l, a) && !IsApi(a) && !a.Abort? && (l.pc.Walk? || l.pc.Flight?)
    requires StuckInv(l)
    ensures StuckInv(Step(l, a))
  {
    if WritesRow(a) {
      WriteKeepsStuck(l, a);
    } else {
      hide RowsInv;
      assert Step(l, a).js.rows == l.js.rows;
    }
  }

  lemma {:induction false} WriteKeepsStuck(l: Local, a: JobAction)
    requires RowsInv(l) && Enabled(l, a) && WritesRow(a) && StuckInv(l)
    ensures StuckInv(Step(l, a))
  {
    var j := RowInHand(l, a);
    ClauseEffect(l, a);
    StuckAfterWrite(l, Step(l, a), j, Clause(l, a));
  }

  lemma {:induction false} StuckAfterWrite(l: Local, l': Local, j: nat, c: SetClause)
    requires Distinct(l.js.rows) && StuckInv(l) && j < |l.js.rows|
    requires var jid := l.js.rows[j].jid;
      && l'.js.rows == UpdateRow(l.js.rows, jid, c)
      && l'.js.log.stuck == l.js.log.stuck && l'.js.log.aborts == l.js.log.aborts
      && (forall o :: InHand(l.pc, o) || InHand(l'.pc, o) ==> o == jid)
      && (InHand(l'.pc, jid) <==> c.SetSending?)
      && (l.js.rows[j].status == Sending ==> InHand(l.pc, jid))
    ensures StuckInv(l')
  {
    var rows, stuck := l.js.rows, l.js.log.stuck;
    StuckAfterUpdate(rows, j, c, stuck, l.pc, l'.pc);
    forall jid | jid in stuck ensures HasJid(l'.js.rows, jid) && !InHand(l'.pc, jid) {
      HasJidKept(rows, l'.js.rows, jid);
    }
  }

  /** The index of the row the worker is about to write. */
  lemma {:induction false} RowInHand(l: Local, a: JobAction) returns (j: nat)
    requires RowsInv(l) && Enabled(l, a) && WritesRow(a)
    ensures j < |l.js.rows| && l.js.rows[j].jid == l.pc.batch[l.pc.pos].jid
    ensures l.js.rows[j].status == if a.MarkSending? then Pending else Sending
    ensures l.js.rows[j].status == Sending ==> InHand(l.pc, l.js.rows[j].jid)
  {
    var s := l.pc.batch[l.pc.pos];
    var st := if a.MarkSending? then Pending else Sending;
    assert RowIs(l.js.rows, s.jid, st, s.attempts);
    var rows := l.js.rows;
    j :| 0 <= j < |rows| && rows[j].jid == s.jid && rows[j].status == st && rows[j].attempts == s.attempts;
  }

  lemma LoseInHand(log: Ledger, pc: Pc)
    requires pc.Flight? ==> pc.pos < |pc.batch|
    ensures LoseStep(log, pc).aborts == log.aborts + 1
    ensures LoseStep(log, pc).stuck == log.stuck + (if Unsettled(pc) then {pc.batch[pc.pos].jid} else {})
  {
  }

  /** The row in hand, if any, is left `sending`. */
  lemma {:induction false} AbortKeepsStuck(l: Local)
    requires RowsInv(l) && Enabled(l, Abort) && StuckInv(l)
    ensures StuckInv(Step(l, Abort))
  {
    hide RowOk, Untouched, BatchStep, ApiStep, LoopStep, LoseStep, InsertingOk;
    LoseInHand(l.js.log, l.pc);
    if Unsettled(l.pc) {
      var s := l.pc.batch[l.pc.pos];
      assert RowIs(l.js.rows, s.jid, Sending, s.attempts);
      var i :| 0 <= i < |l.js.rows| && l.js.rows[i].jid == s.jid && l.js.rows[i].status == Sending;
      assert HasJid(l.js.rows, s.jid);
    }
  }

  lemma {:induction false} LoopKeepsStuck(l: Local, a: JobAction)
    requires Enabled(l, a) && !IsApi(a) && !a.Abort? && !l.pc.Walk? && !l.pc.Flight?
    requires StuckInv(l)
    ensures StuckInv(Step(l, a))
  {
    hide Tally, UpdateRow, PendingBatch, InsertRow, RequeuedJids, BatchStep, ApiStep, Job.AttemptCap, HasJid;
    if !a.ResetRows? {
      assert Step(l, a).js.rows == l.js.rows && Step(l, a).js.log.stuck == l.js.log.stuck;
    }
  }

  lemma {:induction false} ApiKeepsStuck(l: Local, a: JobAction)
    requires RowsInv(l) && Enabled(l, a) && IsApi(a)
    requires StuckInv(l)
    ensures StuckInv(Step(l, a))
  {
    hide Tally, UpdateRow, PendingBatch, RequeuedJids, BatchStep, LoopStep, RowOk, Job.AttemptCap;
    var rows, rows' := l.js.rows, Step(l, a).js.rows;
    KeysAfter(l, a);
    forall jid | jid in l.js.log.stuck ensures HasJid(rows', jid) {
      HasJidKept(rows, rows', jid);
    }
    if a.StoreRow? {
      var n := l.js.inserting[0];
      assert !HasJid(rows, n.jid);
      assert InHand(l.pc, n.jid) ==> HasJid(rows, n.jid);
    }
  }

  // ------------------------------------------------------- status and drained

  lemma {:induction false} BatchKeepsStatus(l: Local, a: JobAction)
    requires Enabled(l, a) && StatusInv(l) && !IsApi(a) && !a.Abort? && (l.pc.Walk? || l.pc.Flight?)
    ensures StatusInv(Step(l, a))
  {
    hide Tally, UpdateRow, BulkUpdate, PendingBatch, InsertRow, RequeuedJids, Job.AttemptCap, LoopStep, ApiStep;
    assert Step(l, a) == BatchStep(l, a);
  }

  lemma {:induction false} LoopKeepsStatus(l: Local, a: JobAction)
    requires Enabled(l, a) && StatusInv(l) && !IsApi(a) && !a.Abort? && !l.pc.Walk? && !l.pc.Flight?
    ensures StatusInv(Step(l, a))
  {
    hide Tally, UpdateRow, BulkUpdate, PendingBatch, InsertRow, RequeuedJids, Job.AttemptCap, BatchStep, ApiStep;
    assert Step(l, a) == LoopStep(l, a);
  }

  lemma {:induction false} ApiKeepsStatus(l: Local, a: JobAction)
    requires Enabled(l, a) && StatusInv(l) && (IsApi(a) || a.Abort?)
    ensures StatusInv(Step(l, a))
  {
    hide Tally, UpdateRow, BulkUpdate, PendingBatch, InsertRow, RequeuedJids, Job.AttemptCap, BatchStep, LoopStep;
  }

  lemma {:induction false} StepKeepsStatus(l: Local, a: JobAction)
    requires Enabled(l, a) && StatusInv(l)
    ensures StatusInv(Step(l, a))
  {
    hide Step, Enabled, StatusInv;
    if IsApi(a) || a.Abort? {
      ApiKeepsStatus(l, a);
    } else if l.pc.Walk? || l.pc.Flight? {
      BatchKeepsStatus(l, a);
    } else {
      LoopKeepsStatus(l, a);
    }
  }

  lemma {:induction false} ArrivalsKept(l: Local, a: JobAction)
    requires Enabled(l, a) && forall jid :: jid in l.js.log.arrivals ==> HasJid(l.js.rows, jid)
    ensures forall jid :: jid in l.js.log.arrivals ==> HasJid(Step(l, a).js.rows, jid)
  {
    KeysAfter(l, a);
    forall jid | jid in l.js.log.arrivals ensures HasJid(Step(l, a).js.rows, jid) {
      HasJidKept(l.js.rows, Step(l, a).js.rows, jid);
    }
  }

  lemma {:induction false} WorkerKeepsDrain(l: Local, a: JobAction)
    requires Distinct(l.js.rows) && Enabled(l, a) && !IsApi(a) && StatusInv(l) && DrainInv(l)
    ensures DrainInv(Step(l, a))
  {
    ArrivalsKept(l, a);
    if a.FetchBatch? {
      PendingBatchSound(l.js.rows, BATCH_SIZE);
    } else if a.Abort? || a.ReadCounters? || a.Finish? || a.ClaimUpdate? {
      assert Step(l, a).js.rows == l.js.rows;
    } else {
      assert !Quiet(l) && !Quiet(Step(l, a));
    }
  }

  lemma {:induction false} StoreKeepsDrain(l: Local)
    requires l.js.inserting != [] && InsertingOk(l.js) && StatusInv(l) && DrainInv(l)
    ensures DrainInv(Step(l, StoreRow))
  {
    var rows, n := l.js.rows, l.js.inserting[0];
    var rows' := Step(l, StoreRow).js.rows;
    ArrivalsKept(l, StoreRow);
    assert !HasJid(rows, n.jid);
    assert rows'[|rows|].jid == n.jid && HasJid(rows', n.jid);
  }

  lemma {:induction false} RequeueKeepsDrain(l: Local, a: JobAction)
    requires Distinct(l.js.rows) && Enabled(l, a) && a.RetryRequeue? && Tally(Requeuable, l.js.rows) > 0 && DrainInv(l)
    ensures DrainInv(Step(l, a))
  {
    hide Tally, Distinct, RequeuedJids;
    var rows, l' := l.js.rows, Step(l, a);
    var rows' := l'.js.rows;
    ArrivalsKept(l, a);
    RequeuedHaveRows(rows, rows');
    forall i | 0 <= i < |rows| && Quiet(l)
      ensures rows'[i].status == Pending <==> rows'[i].jid in l'.js.log.arrivals
    {
      assert rows'[i] == ApplyBulk(rows[i], RequeueFailed);
      RequeuedIff(rows, i);
    }
  }

  lemma RequeuedHaveRows(rows: seq<Row>, rows': seq<Row>)
    requires |rows'| == |rows| && forall i :: 0 <= i < |rows| ==> rows'[i].jid == rows[i].jid
    ensures forall jid :: jid in RequeuedJids(rows) ==> HasJid(rows', jid)
  {
    forall jid | jid in RequeuedJids(rows)
      ensures HasJid(rows', jid)
    {
      var i :| 0 <= i < |rows| && (rows[i].status == Dlq || rows[i].status == Failed) && rows[i].jid == jid;
      assert rows'[i].jid == jid;
    }
  }

  /** A row's recipient is among the requeued iff the row itself is failed. */
  lemma RequeuedIff(rows: seq<Row>, i: nat)
    requires Distinct(rows) && i < |rows|
    ensures rows[i].jid in RequeuedJids(rows) <==> rows[i].status == Dlq || rows[i].status == Failed
  {
  }

  lemma {:induction false} ApiKeepsDrain(l: Local, a: JobAction)
    requires Distinct(l.js.rows) && InsertingOk(l.js) && Enabled(l, a) && IsApi(a) && StatusInv(l) && DrainInv(l)
    ensures DrainInv(Step(l, a))
  {
    hide Tally;
    if a.StoreRow? {
      StoreKeepsDrain(l);
    } else if a.RetryRequeue? && Tally(Requeuable, l.js.rows) > 0 {
      RequeueKeepsDrain(l, a);
    }
  }

  // --------------------------------------------------- cancel and deliveries

  lemma {:induction false} StepKeepsCancel(l: Local, a: JobAction)
    requires Enabled(l, a) && StatusInv(l) && CancelInv(l) && 0 <= Remaining(l.pc) <= BATCH_SIZE
    ensures CancelInv(Step(l, a))
  {
    hide Tally, UpdateRow, BulkUpdate, PendingBatch, InsertRow, RequeuedJids, Job.AttemptCap;
    if a.FetchBatch? {
      PendingBatchBound(l.js.rows, BATCH_SIZE);
    } else if !IsApi(a) && !a.Abort? {
      if l.pc.Walk? || l.pc.Flight? {
        BatchKeepsCancel(l, a);
      } else {
        LoopKeepsCancel(l, a);
      }
    }
  }

  lemma {:induction false} BatchKeepsCancel(l: Local, a: JobAction)
    requires Enabled(l, a) && CancelInv(l) && 0 <= Remaining(l.pc)
    requires !IsApi(a) && !a.Abort? && (l.pc.Walk? || l.pc.Flight?)
    ensures CancelInv(Step(l, a))
  {
    hide Tally, UpdateRow, BulkUpdate, PendingBatch, InsertRow, RequeuedJids, Job.AttemptCap, LoopStep, ApiStep;
    assert Step(l, a) == BatchStep(l, a);
  }

  lemma {:induction false} LoopKeepsCancel(l: Local, a: JobAction)
    requires Enabled(l, a) && StatusInv(l) && CancelInv(l) && !a.FetchBatch?
    requires !IsApi(a) && !a.Abort? && !l.pc.Walk? && !l.pc.Flight?
    ensures CancelInv(Step(l, a))
  {
    hide Tally, UpdateRow, BulkUpdate, PendingBatch, InsertRow, RequeuedJids, Job.AttemptCap, BatchStep, ApiStep;
    assert Step(l, a) == LoopStep(l, a);
  }

  lemma {:induction false} SentAfterUpdate(rows: seq<Row>, jid: Jid, j: nat, c: SetClause, other: Jid)
    requires Distinct(rows) && j < |rows| && rows[j].jid == jid && rows[j].status != Sent
    ensures IsSent(UpdateRow(rows, jid, c), other) == (IsSent(rows, other) || (other == jid && c.SetSent?))
    ensures !IsSent(rows, jid)
  {
    UpdateRowAt(rows, j, c);
    var rows' := rows[j := ApplySet(rows[j], c)];
    if IsSent(rows, other) {
      var i :| 0 <= i < |rows| && rows[i].jid == other && rows[i].status == Sent;
      assert rows'[i] == rows[i];
    }
    if IsSent(rows', other) {
      var i :| 0 <= i < |rows'| && rows'[i].jid == other && rows'[i].status == Sent;
      if i != j {
        assert rows'[i] == rows[i];
      }
    }
    if other == jid && c.SetSent? {
      assert rows'[j].jid == other && rows'[j].status == Sent;
    }
  }

  /** A row write leaves the delivery history alone; only the success in hand is settled by it. */
  lemma WriteDelivery(l: Local, a: JobAction)
    requires Enabled(l, a) && WritesRow(a)
    ensures var log, log' := l.js.log, Step(l, a).js.log;
      log'.delivered == log.delivered && log'.lostDelivered == log.lostDelivered && log'.aborts == log.aborts
    ensures forall jid :: AcceptedInHand(l.pc, jid) <==> Clause(l, a).SetSent? && jid == l.pc.batch[l.pc.pos].jid
    ensures forall jid :: !AcceptedInHand(Step(l, a).pc, jid)
  {
    hide Tally, UpdateRow, BulkUpdate, PendingBatch, InsertRow, RequeuedJids, LoopStep, ApiStep;
    assert Step(l, a) == BatchStep(l, a);
  }

  lemma {:induction false} WriteKeepsDelivery(l: Local, a: JobAction)
    requires RowsInv(l) && Enabled(l, a) && WritesRow(a) && DeliveryInv(l)
    ensures DeliveryInv(Step(l, a))
  {
    hide Step, AcceptedInHand, IsSent, UpdateRow, RowOk, SnapshotOk, InsertingOk, Distinct, InHand;
    var l', jid := Step(l, a), l.pc.batch[l.pc.pos].jid;
    var j := RowInHand(l, a);
    var c := Clause(l, a);
    ClauseEffect(l, a);
    WriteDelivery(l, a);
    forall o
      ensures IsSent(l'.js.rows, o) == (IsSent(l.js.rows, o) || (o == jid && c.SetSent?)) && !IsSent(l.js.rows, jid)
    {
      SentAfterUpdate(l.js.rows, jid, j, c, o);
    }
  }

  /** A dispatch adds what it delivered, and holds it. */
  lemma {:induction false} DispatchKeepsDelivery(l: Local, a: JobAction)
    requires Enabled(l, a) && a.Dispatch? && DeliveryInv(l)
    ensures DeliveryInv(Step(l, a))
  {
    hide LoopStep, ApiStep, IsSent;
    assert Step(l, a) == BatchStep(l, a);
  }

  lemma {:induction false} BatchKeepsDelivery(l: Local, a: JobAction)
    requires RowsInv(l) && Enabled(l, a) && !IsApi(a) && !a.Abort? && (l.pc.Walk? || l.pc.Flight?)
    requires DeliveryInv(l)
    ensures DeliveryInv(Step(l, a))
  {
    hide RowsInv, LoopStep, ApiStep, IsSent, UpdateRow;
    if WritesRow(a) {
      WriteKeepsDelivery(l, a);
    } else if a.Dispatch? {
      DispatchKeepsDelivery(l, a);
    } else {
      assert Step(l, a).js.rows == l.js.rows;
    }
  }

  lemma {:induction false} SentKept(rows: seq<Row>, rows': seq<Row>, jid: Jid)
    requires |rows| <= |rows'|
    requires forall i :: 0 <= i < |rows| ==>
      rows'[i].jid == rows[i].jid && (rows'[i].status == Sent <==> rows[i].status == Sent)
    requires forall i :: |rows| <= i < |rows'| ==> rows'[i].status != Sent
    ensures IsSent(rows', jid) == IsSent(rows, jid)
  {
    if IsSent(rows, jid) {
      var i :| 0 <= i < |rows| && rows[i].jid == jid && rows[i].status == Sent;
      assert rows'[i].jid == jid && rows'[i].status == Sent;
    }
  }

  lemma {:induction false} BulkKeepsDelivery(l: Local, a: JobAction)
    requires Enabled(l, a) && (a.StoreRow? || a.RetryRequeue? || a.ResetRows?)
    requires DeliveryInv(l)
    ensures DeliveryInv(Step(l, a))
  {
    hide Tally, UpdateRow, PendingBatch, RequeuedJids, BatchStep, IsSent;
    var rows, l' := l.js.rows, Step(l, a);
    var rows' := l'.js.rows;
    KeysAfter(l, a);
    assert forall i :: 0 <= i < |rows| ==> (rows'[i].status == Sent <==> rows[i].status == Sent);
    assert forall i :: |rows| <= i < |rows'| ==> rows'[i].status != Sent;
    forall jid ensures IsSent(rows', jid) == IsSent(rows, jid) {
      SentKept(rows, rows', jid);
    }
  }

  lemma {:induction false} OtherKeepsDelivery(l: Local, a: JobAction)
    requires RowsInv(l) && Enabled(l, a) && (IsApi(a) || a.Abort? || (!l.pc.Walk? && !l.pc.Flight?))
    requires DeliveryInv(l)
    ensures DeliveryInv(Step(l, a))
  {
    hide RowsInv, DeliveryInv;
    if a.StoreRow? || a.RetryRequeue? || a.ResetRows? {
      BulkKeepsDelivery(l, a);
    } else if a.Abort? {
      AbortKeepsDelivery(l);
    } else {
      SameRowsKeepDelivery(l, a);
    }
  }

  /** A success in hand becomes a lost one. */
  lemma LoseDelivery(log: Ledger, pc: Pc)
    requires pc.Flight? ==> pc.pos < |pc.batch|
    ensures LoseStep(log, pc).delivered == log.delivered && LoseStep(log, pc).aborts == log.aborts + 1
    ensures LoseStep(log, pc).lostDelivered
      == log.lostDelivered + (if pc.Flight? && pc.phase.Accepted? then multiset{pc.batch[pc.pos].jid} else multiset{})
  {
  }

  lemma {:induction false} AbortKeepsDelivery(l: Local)
    requires Enabled(l, Abort) && DeliveryInv(l)
    ensures DeliveryInv(Step(l, Abort))
  {
    hide BatchStep, LoopStep, ApiStep, LoseStep, IsSent;
    LoseDelivery(l.js.log, l.pc);
    var l' := Step(l, Abort);
    var lost := if l.pc.Flight? && l.pc.phase.Accepted? then multiset{l.pc.batch[l.pc.pos].jid} else multiset{};
    assert |l'.js.log.lostDelivered| == |l.js.log.lostDelivered| + |lost| && |lost| <= 1;
    forall jid
      ensures lost[jid] == One(AcceptedInHand(l.pc, jid)) && !AcceptedInHand(l'.pc, jid)
    {
    }
  }

  /** The other steps change neither the rows nor the delivery history. */
  lemma {:induction false} SameRowsKeepDelivery(l: Local, a: JobAction)
    requires Enabled(l, a) && !a.Abort? && (IsApi(a) || (!l.pc.Walk? && !l.pc.Flight?))
    requires DeliveryInv(l) && !a.StoreRow? && !a.RetryRequeue? && !a.ResetRows?
    ensures DeliveryInv(Step(l, a))
  {
    hide DeliveryInv;
    var l' := Step(l, a);
    NoDelivery(l, a);
    SameDelivery(l, l');
  }

  lemma {:induction false} NoDelivery(l: Local, a: JobAction)
    requires Enabled(l, a) && !a.Abort? && (IsApi(a) || (!l.pc.Walk? && !l.pc.Flight?))
    requires !a.StoreRow? && !a.RetryRequeue? && !a.ResetRows?
    ensures var js, js' := l.js, Step(l, a).js;
      && js'.rows == js.rows && js'.log.delivered == js.log.delivered
      && js'.log.lostDelivered == js.log.lostDelivered && js'.log.aborts == js.log.aborts
    ensures Step(l, a).pc == l.pc || (!l.pc.Flight? && !Step(l, a).pc.Flight?)
  {
    hide Tally, UpdateRow, BulkUpdate, PendingBatch, InsertRow, RequeuedJids, BatchStep, Job.AttemptCap;
  }

  lemma SameDelivery(l: Local, l': Local)
    requires DeliveryInv(l) && l'.js.rows == l.js.rows
    requires l'.js.log.delivered == l.js.log.delivered && l'.js.log.lostDelivered == l.js.log.lostDelivered
    requires l'.js.log.aborts == l.js.log.aborts && (l'.pc == l.pc || (!l.pc.Flight? && !l'.pc.Flight?))
    ensures DeliveryInv(l')
  {
    hide IsSent;
  }

  // ------------------------------------------------------------ all together

  ghost predicate JobInv(l: Local) {
    && RowsInv(l) && CountersInv(l) && BudgetInv(l) && StuckInv(l)
    && StatusInv(l) && DrainInv(l) && CancelInv(l) && DeliveryInv(l)
  }

  lemma InvHasRows(l: Local)
    requires JobInv(l)
    ensures RowsInv(l)
  {
  }

  lemma StepKeepsJobInv(l: Local, a: JobAction)
    requires JobInv(l) && Enabled(l, a)
    ensures JobInv(Step(l, a))
  {
    StepKeepsRows(l, a);
    StepKeepsCounters(l, a);
    StepKeepsStatus(l, a);
    StepKeepsCancel(l, a);
    if IsApi(a) {
      ApiKeepsStuck(l, a);
      ApiKeepsDrain(l, a);
    } else {
      WorkerKeepsDrain(l, a);
      if a.Abort? {
        AbortKeepsStuck(l);
      } else if !l.pc.Walk? && !l.pc.Flight? {
        LoopKeepsStuck(l, a);
      } else {
        BatchKeepsStuck(l, a);
      }
    }
    if IsApi(a) || a.Abort? || (!l.pc.Walk? && !l.pc.Flight?) {
      OtherKeepsDelivery(l, a);
    } else {
      BatchKeepsDelivery(l, a);
    }
  }
}
