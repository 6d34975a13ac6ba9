// The blast tables and their SQL statements, updated in place, and the cancel and
// retry handlers over them. Each statement is tied to the function the state
// machine uses for the same step.
module BlastStore {
  import opened Wrappers
  import opened BlastModel
  import opened BlastRows
  import opened BlastMachine
  import opened BlastProgress

  /** Candidates per `IN (...)` query of the dedup lookup. */
  const DEDUP_CHUNK: nat := 500

  /** Rows of a job after the create handler's inserts. */
  function InsertAll(rows: seq<Row>, newRows: seq<NewRow>): seq<Row>
    decreases |newRows|
  {
    if newRows == [] then rows else InsertAll(InsertRow(rows, newRows[0]), newRows[1..])
  }

  /** The row is that of one of the new recipients, without attempts. */
  predicate IsStoredFrom(row: Row, newRows: seq<NewRow>) {
    exists k :: 0 <= k < |newRows|
      && row == Row(newRows[k].jid, if newRows[k].skipped then SkippedDup else Pending, 0, None, None)
  }

  /** The rows inserted: those already there stay first and as they were, no recipient
      gets a second row, and each new one gets the row asked for. */
  lemma {:induction false} InsertAllIs(rows: seq<Row>, newRows: seq<NewRow>)
    requires Distinct(rows)
    ensures var r := InsertAll(rows, newRows);
      && rows <= r && Distinct(r)
      && (forall k :: 0 <= k < |newRows| ==> HasJid(r, newRows[k].jid))
      && forall i :: |rows| <= i < |r| ==> IsStoredFrom(r[i], newRows)
    decreases |newRows|
  {
    if newRows != [] {
      var rows', rest := InsertRow(rows, newRows[0]), newRows[1..];
      InsertAllIs(rows', rest);
      var r := InsertAll(rows', rest);
      assert HasJid(rows', newRows[0].jid) by {
        RowInserted(rows, newRows[0]);
      }
      KeepsJid(rows', r, newRows[0].jid);
      forall k | 0 <= k < |newRows| ensures HasJid(r, newRows[k].jid) {
        if k > 0 {
          assert newRows[k] == rest[k - 1];
        }
      }
      forall i | |rows| <= i < |r| ensures IsStoredFrom(r[i], newRows) {
        if i < |rows'| {
          assert r[i] == rows'[i];
        } else {
          var k :| 0 <= k < |rest|
            && r[i] == Row(rest[k].jid, if rest[k].skipped then SkippedDup else Pending, 0, None, None);
          assert newRows[k + 1] == rest[k];
        }
      }
    }
  }

  lemma RowInserted(rows: seq<Row>, n: NewRow)
    ensures HasJid(InsertRow(rows, n), n.jid)
  {
    if !HasJid(rows, n.jid) {
      assert InsertRow(rows, n)[|rows|].jid == n.jid;
    }
  }

  lemma KeepsJid(rows: seq<Row>, rows': seq<Row>, jid: Jid)
    requires HasJid(rows, jid) && rows <= rows'
    ensures HasJid(rows', jid)
  {
    var i :| 0 <= i < |rows| && rows[i].jid == jid;
    assert rows'[i].jid == jid;
  }

  predicate Retryable(rows: seq<Row>) {
    exists i :: 0 <= i < |rows| && (rows[i].status == Dlq || rows[i].status == Failed)
  }

  /** Dead-lettered rows start over; every other row is as it was. */
  predicate RowsRequeued(was: seq<Row>, rows: seq<Row>) {
    && |rows| == |was|
    && forall i :: 0 <= i < |rows| ==>
         rows[i] == if was[i].status == Dlq || was[i].status == Failed
                    then was[i].(status := Pending, attempts := 0, lastError := None) else was[i]
  }

  predicate SomeRunning(jobs: map<JobId, Job>) {
    exists id :: id in jobs && jobs[id].status.JobRunning?
  }

  /** A running job of least start time, as stored. */
  ghost predicate OldestToResume(jobs: map<JobId, Job>, id: JobId) {
    id in jobs && jobs[id].status.JobRunning?
    && forall o :: o in jobs && jobs[o].status.JobRunning? ==>
         && Started(jobs[id]) <= Started(jobs[o])
         && (jobs[id].startedAt.Some? && jobs[o].startedAt.Some? ==>
              jobs[id].startedAt.value <= jobs[o].startedAt.value)
  }

  predicate Claimable(job: Job, now: int) {
    job.status.JobPending? && job.Due(now)
  }

  predicate NoneClaimable(jobs: map<JobId, Job>, now: int) {
    forall id :: id in jobs ==> !Claimable(jobs[id], now)
  }

  /** A due pending job of least creation time. */
  ghost predicate OldestClaimable(jobs: map<JobId, Job>, id: JobId, now: int) {
    id in jobs && Claimable(jobs[id], now)
    && forall o :: o in jobs && Claimable(jobs[o], now) ==> jobs[id].createdAt <= jobs[o].createdAt
  }

  class Store {
    var jobs: map<JobId, Job>
    var recipients: map<JobId, seq<Row>>

    ghost predicate Valid()
      reads this
    {
      jobs.Keys == recipients.Keys
    }

    constructor ()
      ensures Valid() && jobs == map[] && recipients == map[]
    {
      jobs, recipients := map[], map[];
    }

    // ------------------------------------------------------------ job choice

    ghost predicate OldestRunning(id: JobId, among: set<JobId>)
      requires id in jobs
      reads this
    {
      && jobs[id].status.JobRunning?
      && forall o :: o in among && o in jobs && jobs[o].status.JobRunning? ==> Started(jobs[id]) <= Started(jobs[o])
    }

    ghost predicate OldestDue(id: JobId, among: set<JobId>, now: int)
      requires id in jobs
      reads this
    {
      && jobs[id].status.JobPending? && jobs[id].Due(now)
      && forall o :: o in among && o in jobs && jobs[o].status.JobPending? && jobs[o].Due(now) ==>
           jobs[id].createdAt <= jobs[o].createdAt
    }

    /** The oldest running job. */
    method RunningJob() returns (r: Option<JobId>)
      ensures r.None? <==> !SomeRunning(jobs)
      ensures r.Some? ==> OldestToResume(jobs, r.value)
    {
      r := None;
      var rest := jobs.Keys;
      while rest != {}
        invariant rest <= jobs.Keys
        invariant r.None? ==> forall o :: o in jobs.Keys - rest ==> !jobs[o].status.JobRunning?
        invariant r.Some? ==> r.value in jobs && OldestRunning(r.value, jobs.Keys - rest)
        decreases rest
      {
        var id :| id in rest;
        rest := rest - {id};
        if jobs[id].status.JobRunning? && (r.None? || Started(jobs[id]) < Started(jobs[r.value])) {
          r := Some(id);
        }
      }
    }

    /** Claims the oldest due pending job by flipping it to running. */
    method ClaimNextDue(now: int) returns (r: Option<JobId>)
      modifies `jobs
      ensures r.None? ==> jobs == old(jobs)
      ensures r.None? <==> NoneClaimable(old(jobs), now)
      ensures r.Some? ==> OldestClaimable(old(jobs), r.value, now)
      ensures r.Some? ==>
        jobs == old(jobs)[r.value := old(jobs)[r.value].(status := JobRunning, startedAt := Some(now))]
    {
      r := None;
      var rest := jobs.Keys;
      while rest != {}
        invariant rest <= jobs.Keys && jobs == old(jobs)
        invariant r.None? ==> forall o :: o in jobs.Keys - rest ==> !(jobs[o].status.JobPending? && jobs[o].Due(now))
        invariant r.Some? ==> r.value in jobs && OldestDue(r.value, jobs.Keys - rest, now)
        decreases rest
      {
        var id :| id in rest;
        rest := rest - {id};
        var older := r.None? || jobs[id].createdAt < jobs[r.value].createdAt;
        if jobs[id].status.JobPending? && jobs[id].Due(now) && older {
          r := Some(id);
        }
      }
      if r.Some? {
        jobs := jobs[r.value := jobs[r.value].(status := JobRunning, startedAt := Some(now))];
      }
    }

    // ------------------------------------------------------- worker statements

    method ResetSendingRecipients(id: JobId)
      requires Valid() && id in recipients
      modifies `recipients
      ensures Valid() && recipients == old(recipients)[id := BulkUpdate(old(recipients)[id], ResetSending)]
    {
      recipients := recipients[id := BulkUpdate(recipients[id], ResetSending)];
    }

    method PendingRecipients(id: JobId, limit: nat) returns (batch: seq<Snap>)
      requires id in recipients
      ensures batch == PendingBatch(recipients[id], limit)
    {
      batch := PendingBatch(recipients[id], limit);
    }

    /** The `mark_recipient_*` family: one row changes, the one addressed. */
    method UpdateRecipient(id: JobId, jid: Jid, set_: SetClause)
      requires Valid() && id in recipients
      modifies `recipients
      ensures Valid() && recipients == old(recipients)[id := UpdateRow(old(recipients)[id], jid, set_)]
    {
      recipients := recipients[id := UpdateRow(recipients[id], jid, set_)];
    }

    method IncrSent(id: JobId)
      requires id in jobs
      modifies `jobs
      ensures jobs == old(jobs)[id := old(jobs)[id].(sentCount := old(jobs)[id].sentCount + 1)]
    {
      jobs := jobs[id := jobs[id].(sentCount := jobs[id].sentCount + 1)];
    }

    method IncrFailed(id: JobId)
      requires id in jobs
      modifies `jobs
      ensures jobs == old(jobs)[id := old(jobs)[id].(failedCount := old(jobs)[id].failedCount + 1)]
    {
      jobs := jobs[id := jobs[id].(failedCount := jobs[id].failedCount + 1)];
    }

    method IncrDlq(id: JobId)
      requires id in jobs
      modifies `jobs
      ensures jobs == old(jobs)[id := old(jobs)[id].(dlqCount := old(jobs)[id].dlqCount + 1)]
    {
      jobs := jobs[id := jobs[id].(dlqCount := jobs[id].dlqCount + 1)];
    }

    method FinishJob(id: JobId, status: JobStatus, now: int)
      requires id in jobs
      modifies `jobs
      ensures jobs == old(jobs)[id := old(jobs)[id].(status := status, finishedAt := Some(now))]
    {
      jobs := jobs[id := jobs[id].(status := status, finishedAt := Some(now))];
    }

    // --------------------------------------------------------- API statements

    method CancelJob(session: string, id: JobId, now: int) returns (changed: bool)
      modifies `jobs
      ensures changed <==>
        && id in old(jobs) && old(jobs)[id].session == session
        && (old(jobs)[id].status.JobPending? || old(jobs)[id].status.JobRunning?)
      ensures jobs == if changed then old(jobs)[id := old(jobs)[id].(status := Cancelled, finishedAt := Some(now))]
                      else old(jobs)
    {
      changed :=
        id in jobs && jobs[id].session == session && (jobs[id].status.JobPending? || jobs[id].status.JobRunning?);
      if changed {
        jobs := jobs[id := jobs[id].(status := Cancelled, finishedAt := Some(now))];
      }
    }

    method RequeueFailedRows(id: JobId) returns (changed: nat)
      requires Valid() && id in recipients
      modifies `recipients
      ensures Valid() && changed == Tally(Requeuable, old(recipients)[id])
      ensures recipients == old(recipients)[id := BulkUpdate(old(recipients)[id], RequeueFailed)]
    {
      changed := Tally(Requeuable, recipients[id]);
      recipients := recipients[id := BulkUpdate(recipients[id], RequeueFailed)];
    }

    method ReopenJob(id: JobId)
      requires id in jobs
      modifies `jobs
      ensures jobs == if old(jobs)[id].status.JobRunning? then old(jobs)
                      else old(jobs)[id := old(jobs)[id].(status := JobPending, finishedAt := None)]
    {
      if !jobs[id].status.JobRunning? {
        jobs := jobs[id := jobs[id].(status := JobPending, finishedAt := None)];
      }
    }

    method InsertJob(id: JobId, job: Job)
      requires Valid() && id !in jobs
      modifies this
      ensures Valid() && jobs == old(jobs)[id := job] && recipients == old(recipients)[id := []]
    {
      jobs := jobs[id := job];
      recipients := recipients[id := []];
    }

    /** One row at a time, each skipped when the recipient already has one. */
    method InsertRecipients(id: JobId, newRows: seq<NewRow>)
      requires Valid() && id in recipients
      modifies `recipients
      ensures Valid() && recipients == old(recipients)[id := InsertAll(old(recipients)[id], newRows)]
    {
      var i := 0;
      while i < |newRows|
        invariant 0 <= i <= |newRows|
        invariant Valid() && id in recipients
        invariant recipients == old(recipients)[id := recipients[id]]
        invariant InsertAll(recipients[id], newRows[i..]) == InsertAll(old(recipients)[id], newRows)
      {
        assert newRows[i..][0] == newRows[i] && newRows[i..][1..] == newRows[i + 1..];
        recipients := recipients[id := InsertRow(recipients[id], newRows[i])];
        i := i + 1;
      }
    }

    /** Some blast of the session already delivered to this recipient. */
    predicate SentInSession(session: string, jid: Jid)
      requires jobs.Keys == recipients.Keys
      reads this
    {
      exists id :: id in jobs && jobs[id].session == session && IsSent(recipients[id], jid)
    }

    /** The candidates that some blast of the session already delivered to. */
    function SentAmong(session: string, candidates: seq<Jid>): set<Jid>
      requires jobs.Keys == recipients.Keys
      reads this
    {
      set j | j in candidates && SentInSession(session, j)
    }

    /** The dedup lookup: chunked queries, one answer. */
    method AlreadySent(session: string, candidates: seq<Jid>) returns (out: set<Jid>)
      requires Valid()
      ensures out == SentAmong(session, candidates)
    {
      out := {};
      var i := 0;
      while i < |candidates|
        invariant 0 <= i <= |candidates|
        invariant out == SentAmong(session, candidates[..i])
      {
        var end := if i + DEDUP_CHUNK <= |candidates| then i + DEDUP_CHUNK else |candidates|;
        var chunk := candidates[i..end];
        assert candidates[..end] == candidates[..i] + chunk;
        out := out + SentAmong(session, chunk);
        i := end;
      }
      assert candidates[..|candidates|] == candidates;
    }

    // --------------------------------------------------------------- handlers

    /** POST .../cancel, undisturbed: 404, 400 on a terminal job, or cancelled. */
    method CancelBlast(session: string, id: JobId, now: int) returns (reply: Reply<Job>)
      modifies `jobs
      ensures reply.NotFound? <==> !(id in old(jobs) && old(jobs)[id].session == session)
      ensures reply.BadRequest? <==>
        id in old(jobs) && old(jobs)[id].session == session && old(jobs)[id].status.IsTerminal()
      ensures reply.Ok? ==>
        && reply.value == old(jobs)[id].(status := Cancelled, finishedAt := Some(now))
        && jobs == old(jobs)[id := reply.value]
      ensures !reply.Ok? ==> jobs == old(jobs)
    {
      if id !in jobs || jobs[id].session != session {
        return NotFound;
      }
      if jobs[id].status.IsTerminal() {
        return BadRequest;
      }
      var changed := CancelJob(session, id, now);
      if !changed {
        return BadRequest;
      }
      reply := Reply.Ok(jobs[id]);
    }

    /** POST .../retry, undisturbed: the dead-lettered recipients get a full set
        of attempts back and the job waits for the worker again. */
    method RetryBlast(session: string, id: JobId) returns (reply: Reply<Job>)
      requires Valid()
      modifies this
      ensures Valid()
      ensures reply.NotFound? <==> !(id in old(jobs) && old(jobs)[id].session == session)
      ensures reply.Ok? <==>
        && id in old(jobs) && old(jobs)[id].session == session
        && !old(jobs)[id].status.JobRunning? && Retryable(old(recipients)[id])
      ensures reply.Ok? ==>
        reply.value == old(jobs)[id].(status := JobPending, finishedAt := None) && jobs == old(jobs)[id := reply.value]
      ensures reply.Ok? ==>
        recipients == old(recipients)[id := recipients[id]] && RowsRequeued(old(recipients)[id], recipients[id])
      ensures !reply.Ok? ==> jobs == old(jobs) && recipients == old(recipients)
    {
      if id !in jobs || jobs[id].session != session {
        return NotFound;
      }
      if jobs[id].status.JobRunning? {
        return BadRequest;
      }
      TallyZero(Requeuable, recipients[id]);
      assert BulkUpdate(recipients[id], RequeueFailed) == recipients[id] <== Tally(Requeuable, recipients[id]) == 0 by {
        if Tally(Requeuable, recipients[id]) == 0 {
          assert forall i :: 0 <= i < |recipients[id]| ==> Weight(Requeuable, recipients[id][i]) == 0;
        }
      }
      var requeued := RequeueFailedRows(id);
      if requeued == 0 {
        assert recipients == old(recipients);
        return BadRequest;
      }
      assert exists i :: 0 <= i < |old(recipients)[id]| && Weight(Requeuable, old(recipients)[id][i]) != 0;
      ReopenJob(id);
      reply := Reply.Ok(jobs[id]);
    }
  }
}
