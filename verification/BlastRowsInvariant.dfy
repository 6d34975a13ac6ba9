// What every step keeps about the recipient rows: attempt counts, the worker's
// batch snapshot, and which rows are mid-send.
module BlastRowsInvariant {
  import opened Wrappers
  import opened BlastModel
  import opened BlastRows
  import opened BlastMachine

  /** Attempt count a row may have in each status. `failed` is never written. */
  ghost predicate RowOk(r: Row, cap: nat) {
    match r.status
    case Pending => r.attempts < cap
    case Sending => r.attempts < cap
    case Sent => r.attempts < cap && r.messageId.Some?
    case Dlq => r.attempts == cap
    case SkippedDup => r.attempts == 0
    case Failed => false
  }

  ghost predicate BatchOk(batch: seq<Snap>) {
    && 0 < |batch| <= BATCH_SIZE
    && forall k, l :: 0 <= k < l < |batch| ==> batch[k].jid != batch[l].jid
  }

  /** Every recipient of the batch from position `from` on is still pending,
      with the attempts of the snapshot. */
  ghost predicate Untouched(rows: seq<Row>, batch: seq<Snap>, from: nat) {
    forall k :: from <= k < |batch| ==> RowIs(rows, batch[k].jid, Pending, batch[k].attempts)
  }

  /** The row in hand has been marked and its outcome is not yet in the table. */
  ghost predicate Unsettled(pc: Pc) {
    pc.Flight? && !pc.phase.SentSettled? && !pc.phase.DlqSettled?
  }

  ghost predicate SnapshotOk(rows: seq<Row>, pc: Pc) {
    match pc
    case Walk(batch, pos) => pos <= |batch| && BatchOk(batch) && Untouched(rows, batch, pos)
    case Flight(batch, pos, phase) =>
      && pos < |batch| && BatchOk(batch) && Untouched(rows, batch, pos + 1)
      && (Unsettled(pc) ==> RowIs(rows, batch[pos].jid, Sending, batch[pos].attempts))
    case _ => true
  }

  ghost predicate InsertingOk(js: JobState) {
    && (forall i, j :: 0 <= i < j < |js.inserting| ==> js.inserting[i].jid != js.inserting[j].jid)
    && (forall i :: 0 <= i < |js.inserting| ==> !HasJid(js.rows, js.inserting[i].jid))
  }

  ghost predicate RowsInv(l: Local) {
    && Distinct(l.js.rows)
    && InsertingOk(l.js)
    && (forall i :: 0 <= i < |l.js.rows| ==> RowOk(l.js.rows[i], l.js.job.AttemptCap()))
    && SnapshotOk(l.js.rows, l.pc)
  }

  lemma RowIsAfterOther(rows: seq<Row>, jid: Jid, c: SetClause, other: Jid, status: RecipientStatus, attempts: nat)
    requires RowIs(rows, other, status, attempts) && other != jid
    ensures RowIs(UpdateRow(rows, jid, c), other, status, attempts)
  {
    var i :| 0 <= i < |rows| && rows[i].jid == other && rows[i].status == status && rows[i].attempts == attempts;
    assert UpdateRow(rows, jid, c)[i] == rows[i];
  }

  lemma RowIsAfterSelf(rows: seq<Row>, jid: Jid, c: SetClause, status: RecipientStatus, attempts: nat)
    requires RowIs(rows, jid, status, attempts)
    ensures var r := ApplySet(Row(jid, status, attempts, None, None), c);
      RowIs(UpdateRow(rows, jid, c), jid, r.status, r.attempts)
  {
    var i :| 0 <= i < |rows| && rows[i].jid == jid && rows[i].status == status && rows[i].attempts == attempts;
    assert UpdateRow(rows, jid, c)[i] == ApplySet(rows[i], c);
  }

  lemma RowIsAfterBulk(rows: seq<Row>, b: Bulk, jid: Jid, status: RecipientStatus, attempts: nat)
    requires RowIs(rows, jid, status, attempts)
    requires status == Pending || (status == Sending && b == RequeueFailed)
    ensures RowIs(BulkUpdate(rows, b), jid, status, attempts)
  {
    var i :| 0 <= i < |rows| && rows[i].jid == jid && rows[i].status == status && rows[i].attempts == attempts;
    assert BulkUpdate(rows, b)[i] == rows[i];
  }

  lemma RowIsAfterInsert(rows: seq<Row>, n: NewRow, jid: Jid, status: RecipientStatus, attempts: nat)
    requires RowIs(rows, jid, status, attempts)
    ensures RowIs(InsertRow(rows, n), jid, status, attempts)
  {
    var i :| 0 <= i < |rows| && rows[i].jid == jid && rows[i].status == status && rows[i].attempts == attempts;
    assert InsertRow(rows, n)[i] == rows[i];
  }

  /** A single-row update keeps the keys, hence uniqueness and the inserts to come. */
  lemma KeysKept(js: JobState, rows': seq<Row>)
    requires Distinct(js.rows) && InsertingOk(js)
    requires |rows'| == |js.rows| && forall i :: 0 <= i < |rows'| ==> rows'[i].jid == js.rows[i].jid
    ensures Distinct(rows') && InsertingOk(js.(rows := rows'))
  {
  }

  lemma {:induction false} UntouchedAfterUpdate(rows: seq<Row>, batch: seq<Snap>, from: nat, jid: Jid, c: SetClause)
    requires Untouched(rows, batch, from)
    requires forall k :: from <= k < |batch| ==> batch[k].jid != jid
    ensures Untouched(UpdateRow(rows, jid, c), batch, from)
  {
    forall k | from <= k < |batch| ensures RowIs(UpdateRow(rows, jid, c), batch[k].jid, Pending, batch[k].attempts) {
      RowIsAfterOther(rows, jid, c, batch[k].jid, Pending, batch[k].attempts);
    }
  }

  lemma {:induction false} RowsOkAfterUpdate(rows: seq<Row>, cap: nat, jid: Jid, status: RecipientStatus,
                                             attempts: nat, c: SetClause)
    requires Distinct(rows) && RowIs(rows, jid, status, attempts)
    requires forall i :: 0 <= i < |rows| ==> RowOk(rows[i], cap)
    requires RowOk(ApplySet(Row(jid, status, attempts, None, None), c), cap)
    ensures var rows' := UpdateRow(rows, jid, c); forall i :: 0 <= i < |rows'| ==> RowOk(rows'[i], cap)
  {
    var j :| 0 <= j < |rows| && rows[j].jid == jid && rows[j].status == status && rows[j].attempts == attempts;
    var rows' := UpdateRow(rows, jid, c);
    forall i | 0 <= i < |rows'| ensures RowOk(rows'[i], cap) {
      if rows[i].jid == jid {
        assert i == j;
        assert rows'[i] == ApplySet(rows[j], c);
      }
    }
  }

  /** The worker's single-row statements, at the recipient in hand. */
  lemma {:induction false} UpdateKeepsRows(js: JobState, batch: seq<Snap>, pos: nat, status: RecipientStatus,
                                           c: SetClause)
    requires Distinct(js.rows) && InsertingOk(js)
    requires forall i :: 0 <= i < |js.rows| ==> RowOk(js.rows[i], js.job.AttemptCap())
    requires pos < |batch| && BatchOk(batch) && Untouched(js.rows, batch, pos + 1)
    requires RowIs(js.rows, batch[pos].jid, status, batch[pos].attempts)
    requires RowOk(ApplySet(Row(batch[pos].jid, status, batch[pos].attempts, None, None), c), js.job.AttemptCap())
    ensures var rows' := UpdateRow(js.rows, batch[pos].jid, c);
      && Distinct(rows') && InsertingOk(js.(rows := rows'))
      && (forall i :: 0 <= i < |rows'| ==> RowOk(rows'[i], js.job.AttemptCap()))
      && Untouched(rows', batch, pos + 1)
  {
    var jid := batch[pos].jid;
    UntouchedAfterUpdate(js.rows, batch, pos + 1, jid, c);
    RowsOkAfterUpdate(js.rows, js.job.AttemptCap(), jid, status, batch[pos].attempts, c);
    KeysKept(js, UpdateRow(js.rows, jid, c));
  }

  lemma SnapInRange(l: Local)
    requires RowsInv(l) && l.pc.Walk? && l.pc.pos < |l.pc.batch|
    ensures l.pc.batch[l.pc.pos].attempts < l.js.job.AttemptCap()
    ensures RowIs(l.js.rows, l.pc.batch[l.pc.pos].jid, Pending, l.pc.batch[l.pc.pos].attempts)
  {
    var s := l.pc.batch[l.pc.pos];
    assert RowIs(l.js.rows, s.jid, Pending, s.attempts);
    var rows := l.js.rows;
    var i :| 0 <= i < |rows| && rows[i].jid == s.jid && rows[i].status == Pending && rows[i].attempts == s.attempts;
    assert RowOk(rows[i], l.js.job.AttemptCap());
  }

  lemma FlightInRange(l: Local)
    requires RowsInv(l) && Unsettled(l.pc)
    ensures l.pc.batch[l.pc.pos].attempts < l.js.job.AttemptCap()
  {
    var s := l.pc.batch[l.pc.pos];
    var rows := l.js.rows;
    var i :| 0 <= i < |rows| && rows[i].jid == s.jid && rows[i].status == Sending && rows[i].attempts == s.attempts;
    assert RowOk(rows[i], l.js.job.AttemptCap());
  }

  lemma {:induction false} MarkSendingKeepsRows(l: Local)
    requires RowsInv(l) && Enabled(l, MarkSending)
    ensures RowsInv(Step(l, MarkSending))
  {
    hide Tally, PendingBatch, BulkUpdate, InsertingOk, Distinct, RowIs, Untouched, BatchOk, UpdateRow;
    var batch, pos := l.pc.batch, l.pc.pos;
    SnapInRange(l);
    UntouchedTail(l.js.rows, batch, pos);
    UpdateKeepsRows(l.js, batch, pos, Pending, SetSending);
    RowIsAfterSelf(l.js.rows, batch[pos].jid, SetSending, Pending, batch[pos].attempts);
  }

  lemma UntouchedTail(rows: seq<Row>, batch: seq<Snap>, from: nat)
    requires Untouched(rows, batch, from)
    ensures Untouched(rows, batch, from + 1)
  {
  }

  lemma {:induction false} MarkSentKeepsRows(l: Local)
    requires RowsInv(l) && Enabled(l, MarkSent)
    ensures RowsInv(Step(l, MarkSent))
  {
    hide Tally, PendingBatch, BulkUpdate, HasJid, Distinct, RowIs, Untouched, BatchOk, UpdateRow;
    FlightInRange(l);
    UpdateKeepsRows(l.js, l.pc.batch, l.pc.pos, Sending, SetSent(l.pc.phase.messageId));
  }

  lemma {:induction false} MarkErrorKeepsRows(l: Local)
    requires RowsInv(l) && Enabled(l, MarkError)
    ensures RowsInv(Step(l, MarkError))
  {
    hide Tally, PendingBatch, BulkUpdate, HasJid, Distinct, RowIs, Untouched, BatchOk, UpdateRow;
    var batch, pos, e := l.pc.batch, l.pc.pos, l.pc.phase.error;
    FlightInRange(l);
    UpdateKeepsRows(l.js, batch, pos, Sending,
      if batch[pos].attempts + 1 < l.js.job.AttemptCap() then SetRetry(e) else SetDlq(e));
  }

  lemma {:induction false} BatchKeepsRows(l: Local, a: JobAction)
    requires RowsInv(l) && Enabled(l, a) && !IsApi(a) && !a.Abort? && (l.pc.Walk? || l.pc.Flight?)
    ensures RowsInv(Step(l, a))
  {
    hide Tally, PendingBatch, BulkUpdate, Distinct, RowIs, RowOk, Untouched, BatchOk, UpdateRow;
    if a.MarkSending? {
      MarkSendingKeepsRows(l);
    } else if a.MarkSent? {
      MarkSentKeepsRows(l);
    } else if a.MarkError? {
      MarkErrorKeepsRows(l);
    } else {
      assert Step(l, a).js.rows == l.js.rows;
    }
  }

  lemma {:induction false} LoopKeepsRows(l: Local, a: JobAction)
    requires RowsInv(l) && Enabled(l, a) && !IsApi(a) && !a.Abort? && !l.pc.Walk? && !l.pc.Flight?
    ensures RowsInv(Step(l, a))
  {
    if a.ResetRows? {
      KeysKept(l.js, BulkUpdate(l.js.rows, ResetSending));
    } else if a.FetchBatch? {
      PendingBatchSound(l.js.rows, BATCH_SIZE);
    }
  }

  lemma SnapshotKept(rows: seq<Row>, rows': seq<Row>, pc: Pc)
    requires SnapshotOk(rows, pc)
    requires forall jid, st, n ::
      RowIs(rows, jid, st, n) && (st == Pending || st == Sending) ==> RowIs(rows', jid, st, n)
    ensures SnapshotOk(rows', pc)
  {
  }

  lemma ApiKeepsRows(l: Local, a: JobAction)
    requires RowsInv(l) && Enabled(l, a) && IsApi(a)
    ensures RowsInv(Step(l, a))
  {
    hide Tally, PendingBatch, UpdateRow, BulkUpdate, InsertRow, RowOk, Distinct, HasJid, SnapshotOk, RequeuedJids;
    if a.StoreRow? {
      StoreKeepsRows(l);
    } else if a.RetryRequeue? {
      RequeueKeepsRows(l, a);
    }
  }

  lemma StoreKeepsRows(l: Local)
    requires RowsInv(l) && Enabled(l, StoreRow)
    ensures RowsInv(Step(l, StoreRow))
  {
    hide Tally, PendingBatch, UpdateRow, BulkUpdate, RowIs, SnapshotOk;
    var rows, l', n := l.js.rows, Step(l, StoreRow), l.js.inserting[0];
    assert !HasJid(rows, n.jid);
    forall jid, st, k | RowIs(rows, jid, st, k) ensures RowIs(l'.js.rows, jid, st, k) {
      RowIsAfterInsert(rows, n, jid, st, k);
    }
    SnapshotKept(rows, l'.js.rows, l.pc);
    assert forall i :: 0 <= i < |l'.js.inserting| ==> l'.js.inserting[i] == l.js.inserting[i + 1];
  }

  lemma RequeueKeepsRows(l: Local, a: JobAction)
    requires RowsInv(l) && Enabled(l, a) && a.RetryRequeue?
    ensures RowsInv(Step(l, a))
  {
    hide Tally, PendingBatch, UpdateRow, RowIs, SnapshotOk, HasJid, Distinct, RequeuedJids;
    var rows, rows' := l.js.rows, BulkUpdate(l.js.rows, RequeueFailed);
    forall jid, st, k | RowIs(rows, jid, st, k) && (st == Pending || st == Sending) ensures RowIs(rows', jid, st, k) {
      RowIsAfterBulk(rows, RequeueFailed, jid, st, k);
    }
    SnapshotKept(rows, rows', l.pc);
    KeysKept(l.js, rows');
  }

  lemma StepKeepsRows(l: Local, a: JobAction)
    requires RowsInv(l) && Enabled(l, a)
    ensures RowsInv(Step(l, a))
  {
    if IsApi(a) {
      ApiKeepsRows(l, a);
    } else if !a.Abort? {
      if l.pc.Walk? || l.pc.Flight? {
        BatchKeepsRows(l, a);
      } else {
        LoopKeepsRows(l, a);
      }
    }
  }

  /** A row that reached `sent` is never written again. */
  lemma SentRowsFrozen(l: Local, a: JobAction, i: nat)
    requires RowsInv(l) && Enabled(l, a)
    requires i < |l.js.rows| && l.js.rows[i].status == Sent
    ensures i < |Step(l, a).js.rows| && Step(l, a).js.rows[i] == l.js.rows[i]
  {
    hide Tally, PendingBatch, InsertingOk, RowOk, Distinct, RowIs;
    if a.MarkSending? || a.MarkSent? || a.MarkError? {
      var s := l.pc.batch[l.pc.pos];
      NotTheSentRow(l.js.rows, s.jid, if a.MarkSending? then Pending else Sending, s.attempts, i);
    }
  }

  /** The row about to be written is not one that is `sent`. */
  lemma NotTheSentRow(rows: seq<Row>, jid: Jid, status: RecipientStatus, attempts: nat, i: nat)
    requires Distinct(rows) && RowIs(rows, jid, status, attempts) && status != Sent
    requires i < |rows| && rows[i].status == Sent
    ensures rows[i].jid != jid
  {
  }
}
