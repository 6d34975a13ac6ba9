// The recipient table of one job, in insertion order, and the SQL statements
// that touch it. `(job_id, recipient)` is unique, so a statement addressed by
// recipient changes at most one row.
module BlastRows {
  import opened Wrappers
  import opened BlastModel

  /** SET clauses of the single-row updates. */
  datatype SetClause = SetSending | SetSent(messageId: string) | SetRetry(error: string) | SetDlq(error: string)

  /** Every clause overwrites `last_error`; only a delivery writes `message_id`. */
  function ApplySet(r: Row, c: SetClause): Row {
    match c
    case SetSending => r.(status := Sending, lastError := None)
    case SetSent(mid) => r.(status := Sent, messageId := Some(mid), lastError := None)
    case SetRetry(e) => r.(status := Pending, attempts := r.attempts + 1, lastError := Some(e))
    case SetDlq(e) => r.(status := Dlq, attempts := r.attempts + 1, lastError := Some(e))
  }

  /** UPDATE ... WHERE job_id = ? AND recipient = jid. */
  function UpdateRow(rows: seq<Row>, jid: Jid, c: SetClause): (r: seq<Row>)
    ensures |r| == |rows|
    ensures forall i :: 0 <= i < |rows| ==> r[i] == if rows[i].jid == jid then ApplySet(rows[i], c) else rows[i]
  {
    if rows == [] then [] else
      [if rows[0].jid == jid then ApplySet(rows[0], c) else rows[0]] + UpdateRow(rows[1..], jid, c)
  }

  /** The two bulk statements: sending -> pending on claim, and the requeue
      behind the retry endpoint. */
  datatype Bulk = ResetSending | RequeueFailed

  function ApplyBulk(r: Row, b: Bulk): Row {
    match b
    case ResetSending => if r.status == Sending then r.(status := Pending) else r
    case RequeueFailed =>
      if r.status == Dlq || r.status == Failed then
        r.(status := Pending, attempts := 0, lastError := None)
      else r
  }

  function BulkUpdate(rows: seq<Row>, b: Bulk): (r: seq<Row>)
    ensures |r| == |rows|
    ensures forall i :: 0 <= i < |rows| ==> r[i] == ApplyBulk(rows[i], b)
  {
    if rows == [] then [] else [ApplyBulk(rows[0], b)] + BulkUpdate(rows[1..], b)
  }

  /** SELECT ... WHERE status = 'pending' ORDER BY id LIMIT limit. */
  function PendingBatch(rows: seq<Row>, limit: nat): seq<Snap> {
    if limit == 0 || rows == [] then []
    else if rows[0].status == Pending then
      [Snap(rows[0].jid, rows[0].attempts)] + PendingBatch(rows[1..], limit - 1)
    else PendingBatch(rows[1..], limit)
  }

  /** INSERT ... ON CONFLICT (job_id, recipient) DO NOTHING. */
  function InsertRow(rows: seq<Row>, n: NewRow): seq<Row> {
    if HasJid(rows, n.jid) then rows
    else rows + [Row(n.jid, if n.skipped then SkippedDup else Pending, 0, None, None)]
  }

  predicate HasJid(rows: seq<Row>, jid: Jid) {
    exists i :: 0 <= i < |rows| && rows[i].jid == jid
  }

  /** The UNIQUE (job_id, recipient) constraint. */
  predicate Distinct(rows: seq<Row>) {
    forall i, j :: 0 <= i < j < |rows| ==> rows[i].jid != rows[j].jid
  }

  /** `jid` has a row, with this status and this attempt count. */
  predicate RowIs(rows: seq<Row>, jid: Jid, status: RecipientStatus, attempts: nat) {
    exists i :: 0 <= i < |rows| && rows[i].jid == jid && rows[i].status == status && rows[i].attempts == attempts
  }

  // ---------------------------------------------------------------- tallies

  /** Row counts and sums the job counters are compared with. */
  datatype Measure =
    | SentRows
    | DlqRows
    | AttemptsMade
    | AcceptedRows              // rows that are not skipped duplicates
    | Requeuable            // rows the retry endpoint puts back
    | RequeuableAttempts    // attempts the retry endpoint wipes
    | AttemptsLeft(cap: nat)

  function Weight(m: Measure, r: Row): nat {
    match m
    case SentRows => if r.status == Sent then 1 else 0
    case DlqRows => if r.status == Dlq then 1 else 0
    case AttemptsMade => r.attempts
    case AcceptedRows => if r.status == SkippedDup then 0 else 1
    case Requeuable => if r.status == Dlq || r.status == Failed then 1 else 0
    case RequeuableAttempts => if r.status == Dlq || r.status == Failed then r.attempts else 0
    case AttemptsLeft(cap) =>
      if (r.status == Pending || r.status == Sending) && r.attempts <= cap then cap - r.attempts else 0
  }

  function Tally(m: Measure, rows: seq<Row>): nat {
    if rows == [] then 0 else Weight(m, rows[0]) + Tally(m, rows[1..])
  }

  lemma {:induction false} TallyReplace(m: Measure, rows: seq<Row>, i: nat, r: Row)
    requires i < |rows|
    ensures Tally(m, rows[i := r]) + Weight(m, rows[i]) == Tally(m, rows) + Weight(m, r)
  {
    if i == 0 {
      assert rows[i := r][1..] == rows[1..];
    } else {
      assert rows[i := r][1..] == rows[1..][i - 1 := r];
      TallyReplace(m, rows[1..], i - 1, r);
    }
  }

  lemma {:induction false} TallyAppend(m: Measure, rows: seq<Row>, r: Row)
    ensures Tally(m, rows + [r]) == Tally(m, rows) + Weight(m, r)
  {
    if rows == [] {
      assert (rows + [r])[1..] == [];
    } else {
      assert (rows + [r])[1..] == rows[1..] + [r];
      TallyAppend(m, rows[1..], r);
    }
  }

  lemma {:induction false} TallySame(m: Measure, rows: seq<Row>, rows': seq<Row>)
    requires |rows| == |rows'|
    requires forall i :: 0 <= i < |rows| ==> Weight(m, rows[i]) == Weight(m, rows'[i])
    ensures Tally(m, rows) == Tally(m, rows')
  {
    if rows != [] {
      TallySame(m, rows[1..], rows'[1..]);
    }
  }

  /** What the requeue statement does to the tallies the counters rest on. */
  lemma {:induction false} TallyRequeue(rows: seq<Row>)
    ensures var rows' := BulkUpdate(rows, RequeueFailed);
      && Tally(SentRows, rows') == Tally(SentRows, rows)
      && Tally(DlqRows, rows') == 0
      && Tally(AcceptedRows, rows') == Tally(AcceptedRows, rows)
      && Tally(AttemptsMade, rows') + Tally(RequeuableAttempts, rows) == Tally(AttemptsMade, rows)
  {
    if rows != [] {
      TallyRequeue(rows[1..]);
      assert BulkUpdate(rows, RequeueFailed)[1..] == BulkUpdate(rows[1..], RequeueFailed);
    }
  }

  /** Attempts granted to `n` rows, `cap` each; a product kept out of the
      solver's arithmetic. */
  function Grant(cap: nat, n: nat): nat {
    if n == 0 then 0 else cap + Grant(cap, n - 1)
  }

  lemma {:induction false} GrantIsProduct(cap: nat, n: nat)
    ensures Grant(cap, n) == cap * n
  {
    if n > 0 {
      GrantIsProduct(cap, n - 1);
      assert cap * n == cap * (n - 1) + cap;
    }
  }

  lemma {:induction false} GrantAdds(cap: nat, m: nat, n: nat)
    ensures Grant(cap, m + n) == Grant(cap, m) + Grant(cap, n)
  {
    if n > 0 {
      GrantAdds(cap, m, n - 1);
      assert Grant(cap, m + n) == cap + Grant(cap, m + n - 1);
    }
  }

  /** Each requeued row gets a full set of attempts back. */
  lemma {:induction false} TallyRequeueAttempts(rows: seq<Row>, cap: nat)
    ensures Tally(AttemptsLeft(cap), BulkUpdate(rows, RequeueFailed))
         == Tally(AttemptsLeft(cap), rows) + Grant(cap, Tally(Requeuable, rows))
  {
    if rows != [] {
      TallyRequeueAttempts(rows[1..], cap);
      assert BulkUpdate(rows, RequeueFailed)[1..] == BulkUpdate(rows[1..], RequeueFailed);
    }
  }

  lemma TallyReset(rows: seq<Row>, cap: nat)
    ensures var rows' := BulkUpdate(rows, ResetSending);
      && Tally(SentRows, rows') == Tally(SentRows, rows)
      && Tally(DlqRows, rows') == Tally(DlqRows, rows)
      && Tally(AcceptedRows, rows') == Tally(AcceptedRows, rows)
      && Tally(AttemptsMade, rows') == Tally(AttemptsMade, rows)
      && Tally(AttemptsLeft(cap), rows') == Tally(AttemptsLeft(cap), rows)
  {
    var rows' := BulkUpdate(rows, ResetSending);
    TallySame(SentRows, rows, rows');
    TallySame(DlqRows, rows, rows');
    TallySame(AcceptedRows, rows, rows');
    TallySame(AttemptsMade, rows, rows');
    TallySame(AttemptsLeft(cap), rows, rows');
  }

  /** A tally of zero means no row has weight. */
  lemma {:induction false} TallyZero(m: Measure, rows: seq<Row>)
    ensures Tally(m, rows) == 0 <==> forall i :: 0 <= i < |rows| ==> Weight(m, rows[i]) == 0
  {
    if rows != [] {
      TallyZero(m, rows[1..]);
      assert forall i :: 0 < i < |rows| ==> rows[i] == rows[1..][i - 1];
      assert forall i :: 0 <= i < |rows[1..]| ==> rows[1..][i] == rows[i + 1];
    }
  }

  // ---------------------------------------------------------- single updates

  lemma UpdateRowAt(rows: seq<Row>, i: nat, c: SetClause)
    requires Distinct(rows) && i < |rows|
    ensures UpdateRow(rows, rows[i].jid, c) == rows[i := ApplySet(rows[i], c)]
  {
    var r := UpdateRow(rows, rows[i].jid, c);
    forall k | 0 <= k < |rows| ensures r[k] == rows[i := ApplySet(rows[i], c)][k] {
      if k < i {
        assert rows[k].jid != rows[i].jid;
      } else if i < k {
        assert rows[i].jid != rows[k].jid;
      }
    }
  }

  /** The pending rows in insertion order, as the worker sees them. */
  function PendingOf(rows: seq<Row>): seq<Snap> {
    if rows == [] then []
    else (if rows[0].status == Pending then [Snap(rows[0].jid, rows[0].attempts)] else []) + PendingOf(rows[1..])
  }

  lemma {:induction false} PendingOfAppend(a: seq<Row>, b: seq<Row>)
    ensures PendingOf(a + b) == PendingOf(a) + PendingOf(b)
  {
    if a == [] {
      assert a + b == b;
    } else {
      assert (a + b)[1..] == a[1..] + b;
      PendingOfAppend(a[1..], b);
    }
  }

  /** The batch is the oldest pending rows: of two rows the one inserted first comes
      first, and only rows after all of a full batch are left out. */
  lemma {:induction false} BatchIsOldest(rows: seq<Row>, limit: nat)
    ensures PendingBatch(rows, limit) <= PendingOf(rows)
    ensures |PendingBatch(rows, limit)| == if |PendingOf(rows)| < limit then |PendingOf(rows)| else limit
  {
    if limit > 0 && rows != [] {
      BatchIsOldest(rows[1..], if rows[0].status == Pending then limit - 1 else limit);
    }
  }

  lemma {:induction false} PendingBatchBound(rows: seq<Row>, limit: nat)
    ensures |PendingBatch(rows, limit)| <= limit
  {
    if limit > 0 && rows != [] {
      PendingBatchBound(rows[1..], if rows[0].status == Pending then limit - 1 else limit);
    }
  }

  /** The batch is made of pending rows, each at its current attempt count,
      none twice, and is empty only when no row is pending. */
  lemma {:induction false} PendingBatchSound(rows: seq<Row>, limit: nat)
    requires Distinct(rows)
    ensures var b := PendingBatch(rows, limit);
      && |b| <= limit
      && (forall k :: 0 <= k < |b| ==> RowIs(rows, b[k].jid, Pending, b[k].attempts))
      && (forall k, l :: 0 <= k < l < |b| ==> b[k].jid != b[l].jid)
      && (limit > 0 && b == [] ==> forall i :: 0 <= i < |rows| ==> rows[i].status != Pending)
  {
    if limit > 0 && rows != [] {
      var rest := rows[1..];
      var limit' := if rows[0].status == Pending then limit - 1 else limit;
      assert forall i :: 0 <= i < |rest| ==> rest[i] == rows[i + 1];
      PendingBatchSound(rest, limit');
      var t := PendingBatch(rest, limit');
      forall k | 0 <= k < |t| ensures RowIs(rows, t[k].jid, Pending, t[k].attempts) && t[k].jid != rows[0].jid {
        assert RowIs(rest, t[k].jid, Pending, t[k].attempts);
        var s := t[k];
        var i :| 0 <= i < |rest| && rest[i].jid == s.jid && rest[i].status == Pending && rest[i].attempts == s.attempts;
        assert rows[i + 1] == rest[i];
      }
      if rows[0].status == Pending {
        assert rows[0].jid == rows[0].jid && RowIs(rows, rows[0].jid, Pending, rows[0].attempts);
      }
    }
  }
}
