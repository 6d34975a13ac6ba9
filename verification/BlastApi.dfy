// The HTTP handlers over the tables, as runs of the system.
module BlastApi {
  import opened Wrappers
  import opened BlastModel
  import opened BlastRows
  import opened BlastMachine
  import opened BlastSafety
  import opened BlastStore
  import opened BlastCreate
  import opened BlastDedup
  import opened BlastTick

  /** Nothing of the system but job `id` differs, and the worker stays put. */
  ghost predicate OnlyJob(s: State, s': State, id: JobId) {
    && s'.worker == s.worker && id in s'.jobs && s'.jobs.Keys == s.jobs.Keys + {id}
    && forall o :: o in s.jobs && o != id ==> s'.jobs[o] == s.jobs[o]
  }

  lemma ApiEffect(s: State, id: JobId, a: JobAction)
    requires id in s.jobs && Enabled(View(s, id), a) && IsApi(a)
    ensures IsRun(s, [Act(id, a)])
    ensures After(s, [Act(id, a)]) == s.(jobs := s.jobs[id := ApiStep(s.jobs[id], a)])
  {
    assert [Act(id, a)][1..] == [];
  }

  /** The cancel call: each reply under its condition, and one step of the machine or nothing. */
  method CancelCall(db: Store, session: string, id: JobId, now: int, ghost s: State)
      returns (reply: Reply<Job>, ghost run: seq<Action>)
    requires Mirrors(db, s) && Inv(s)
    modifies db
    ensures IsRun(s, run) && Mirrors(db, After(s, run)) && Inv(After(s, run))
    ensures reply.NotFound? <==> !(id in old(db.jobs) && old(db.jobs)[id].session == session)
    ensures reply.Ok? <==>
      && id in old(db.jobs) && old(db.jobs)[id].session == session
      && (old(db.jobs)[id].status == JobPending || old(db.jobs)[id].status == JobRunning)
    ensures reply.Ok? ==> db.jobs == old(db.jobs)[id := old(db.jobs)[id].(status := Cancelled, finishedAt := Some(now))]
    ensures reply.Ok? ==> run == [Act(id, Cancel(session, now))] && reply.value == db.jobs[id]
    ensures !reply.Ok? ==> run == [] && db.jobs == old(db.jobs)
    ensures db.recipients == old(db.recipients)
  {
    hide Inv, Tally, BulkUpdate, IsRun, After;
    EmptyRun(s);
    reply := db.CancelBlast(session, id, now);
    run := [];
    if reply.Ok? {
      ApiEffect(s, id, Cancel(session, now));
      run := [Act(id, Cancel(session, now))];
      InvOverRun(s, run);
    }
  }

  /** The retry call: each reply under its condition, and check, requeue and reopen or nothing. */
  method RetryCall(db: Store, session: string, id: JobId, call: CallId, ghost s: State)
      returns (reply: Reply<Job>, ghost run: seq<Action>)
    requires Mirrors(db, s) && Inv(s) && (id in s.jobs ==> call !in s.jobs[id].retries)
    modifies db
    ensures IsRun(s, run) && Mirrors(db, After(s, run)) && Inv(After(s, run))
    ensures reply.Ok? ==> run == [Act(id, RetryCheck(call)), Act(id, RetryRequeue(call)), Act(id, RetryReopen(call))]
    ensures reply.NotFound? <==> !(id in old(db.jobs) && old(db.jobs)[id].session == session)
    ensures reply.Ok? <==>
      && id in old(db.jobs) && old(db.jobs)[id].session == session && old(db.jobs)[id].status != JobRunning
      && Retryable(old(db.recipients)[id])
    ensures reply.Ok? ==> db.jobs == old(db.jobs)[id := old(db.jobs)[id].(status := JobPending, finishedAt := None)]
    ensures reply.Ok? ==> reply.value == db.jobs[id] && RowsRequeued(old(db.recipients)[id], db.recipients[id])
    ensures reply.Ok? ==> db.recipients == old(db.recipients)[id := db.recipients[id]]
    ensures !reply.Ok? ==> run == [] && db.jobs == old(db.jobs) && db.recipients == old(db.recipients)
  {
    hide Inv, Tally, BulkUpdate, RequeuedJids;
    ghost var rows := if id in db.recipients then db.recipients[id] else [];
    reply := db.RetryBlast(session, id);
    run := [];
    if reply.Ok? {
      run := RetryRun(s, id, call);
      RequeuedRows(rows, db.recipients[id]);
      InvOverRun(s, run);
    }
  }

  /** `RowsRequeued` pins the rows down to the requeue statement's. */
  lemma RequeuedRows(was: seq<Row>, rows: seq<Row>)
    requires RowsRequeued(was, rows)
    ensures rows == BulkUpdate(was, RequeueFailed)
  {
  }

  lemma RetryRun(s: State, id: JobId, call: CallId) returns (run: seq<Action>)
    requires id in s.jobs && call !in s.jobs[id].retries && !s.jobs[id].job.status.JobRunning?
    requires Retryable(s.jobs[id].rows)
    ensures run == [Act(id, RetryCheck(call)), Act(id, RetryRequeue(call)), Act(id, RetryReopen(call))] && IsRun(s, run)
    ensures OnlyJob(s, After(s, run), id)
    ensures After(s, run).jobs[id].job == s.jobs[id].job.(status := JobPending, finishedAt := None)
    ensures After(s, run).jobs[id].rows == BulkUpdate(s.jobs[id].rows, RequeueFailed)
  {
    hide Tally, BulkUpdate, RequeuedJids, IsRun, After, Step, ApiStep, Retryable;
    SomethingToRequeue(s.jobs[id].rows);
    RetryStates(s.jobs[id], call);
    run := [Act(id, RetryCheck(call))];
    ApiEffect(s, id, RetryCheck(call));
    var s1 := After(s, run);
    ApiEffect(s1, id, RetryRequeue(call));
    RunsThen(s, run, [Act(id, RetryRequeue(call))]);
    run := run + [Act(id, RetryRequeue(call))];
    var s2 := After(s, run);
    ApiEffect(s2, id, RetryReopen(call));
    RunsThen(s, run, [Act(id, RetryReopen(call))]);
    run := run + [Act(id, RetryReopen(call))];
  }

  lemma SomethingToRequeue(rows: seq<Row>)
    requires Retryable(rows)
    ensures Tally(Requeuable, rows) > 0
  {
    hide Tally;
    TallyZero(Requeuable, rows);
    var i :| 0 <= i < |rows| && (rows[i].status == Dlq || rows[i].status == Failed);
    assert Weight(Requeuable, rows[i]) != 0;
  }

  /** The job through the three statements of a retry. */
  lemma RetryStates(js: JobState, call: CallId)
    requires call !in js.retries && !js.job.status.JobRunning? && Tally(Requeuable, js.rows) > 0
    ensures var js1 := ApiStep(js, RetryCheck(call)); var js2 := ApiStep(js1, RetryRequeue(call));
      var js3 := ApiStep(js2, RetryReopen(call));
      && call in js1.retries && js1.retries[call].Checked? && call in js2.retries && js2.retries[call].Requeued?
      && js3.job == js.job.(status := JobPending, finishedAt := None) && js3.rows == BulkUpdate(js.rows, RequeueFailed)
  {
    hide Tally, BulkUpdate, RequeuedJids;
  }

  /** The inserts of a job's recipients, one after the other. */
  lemma {:induction false} StoreAll(s: State, id: JobId) returns (run: seq<Action>)
    requires id in s.jobs
    ensures IsRun(s, run) && OnlyJob(s, After(s, run), id)
    ensures |run| == |s.jobs[id].inserting| && forall k :: 0 <= k < |run| ==> run[k] == Act(id, StoreRow)
    ensures var js, js' := s.jobs[id], After(s, run).jobs[id];
      js'.job == js.job && js'.inserting == [] && js'.rows == InsertAll(js.rows, js.inserting)
    decreases |s.jobs[id].inserting|
  {
    hide InsertRow, IsRun, After;
    if s.jobs[id].inserting == [] {
      EmptyRun(s);
      run := [];
    } else {
      ApiEffect(s, id, StoreRow);
      var s1 := After(s, [Act(id, StoreRow)]);
      var rest := StoreAll(s1, id);
      RunsThen(s, [Act(id, StoreRow)], rest);
      run := [Act(id, StoreRow)] + rest;
    }
  }

  /** The create call: each reply under its condition, the job stored as asked, and
      a job insert and its recipient inserts; a refused one is nothing. With dedup
      its pending rows are for exactly the requested recipients whose deliveries by
      the session were all lost or are still in hand. */
  method CreateCall(db: Store, id: JobId, session: string, sessionKnown: bool, bodyFits: bool,
                    raw: seq<string>, parse: string -> Option<Jid>, dedup: bool, maxAttempts: nat,
                    sendAt: Option<int>, now: int, ghost s: State)
      returns (reply: Reply<Created>, ghost run: seq<Action>)
    requires db.Valid() && Mirrors(db, s) && Inv(s) && id !in s.jobs
    modifies db
    ensures IsRun(s, run) && Mirrors(db, After(s, run)) && Inv(After(s, run))
    ensures reply.NotFound? <==> !sessionKnown
    ensures reply.BadRequest? <==> sessionKnown && (!bodyFits || raw == [] || !AllParse(raw, parse))
    ensures reply.Ok? ==>
      && id in db.jobs && id in db.recipients && reply.value.total + reply.value.skippedDup == |raw|
      && db.jobs == old(db.jobs)[id := Job(session, true, maxAttempts, JobPending, reply.value.total, 0, 0, 0,
                                           reply.value.skippedDup, sendAt, now, None, None)]
      && db.recipients == old(db.recipients)[id := db.recipients[id]]
    ensures !reply.Ok? ==> db.jobs == old(db.jobs) && db.recipients == old(db.recipients)
    ensures if reply.Ok? then |run| > 0 && run[0].CreateJob? && run[0].id == id else run == []
    ensures forall k :: 1 <= k < |run| ==> run[k] == Act(id, StoreRow)
    ensures reply.Ok? && dedup ==> id in db.recipients && forall j ::
      HasPending(db.recipients[id], j) <==> j in Firsts(raw, parse) && UnseenInSession(s, session, j)
  {
    hide Inv, IsRun, After, Stored, InsertAll, FreshJob, Firsts, Without, ToSet, AllParse, OnlyJob, UnseenInSession,
      HasPending;
    ghost var newRows;
    EmptyRun(s);
    ghost var asked := Firsts(raw, parse);
    ghost var accepted := Without(asked, if dedup then db.SentAmong(session, asked) else {});
    forall j | dedup ensures j in accepted <==> j in asked && UnseenInSession(s, session, j) {
      AcceptedIff(db, s, session, asked, j);
    }
    reply, newRows := CreateBlast(db, id, session, sessionKnown, bodyFits, raw, parse, dedup, maxAttempts, sendAt, now);
    run := [];
    if reply.Ok? {
      forall j ensures HasPending(db.recipients[id], j) <==> j in accepted {
        StoredPending(db.jobs[id], db.recipients[id], reply.value.total, reply.value.skippedDup, ToSet(asked), accepted,
                      j);
      }
      run := CreateRun(s, id, db.jobs[id], newRows);
      MirrorsOneMore(old(db.jobs), old(db.recipients), s, After(s, run), id, db.jobs[id], db.recipients[id]);
      InvOverRun(s, run);
    }
  }

  ghost predicate Tables(jobs: map<JobId, Job>, recipients: map<JobId, seq<Row>>, s: State) {
    && jobs.Keys == recipients.Keys == s.jobs.Keys
    && forall id :: id in s.jobs ==> jobs[id] == s.jobs[id].job && recipients[id] == s.jobs[id].rows
  }

  lemma MirrorsOneMore(jobs: map<JobId, Job>, recipients: map<JobId, seq<Row>>, s: State, s': State, id: JobId,
                       job: Job, rows: seq<Row>)
    requires Tables(jobs, recipients, s) && OnlyJob(s, s', id)
    requires id in s'.jobs && s'.jobs[id].job == job && s'.jobs[id].rows == rows
    ensures Tables(jobs[id := job], recipients[id := rows], s')
  {
  }

  lemma EmptyRun(s: State)
    ensures IsRun(s, []) && After(s, []) == s
  {
  }

  lemma CreateRun(s: State, id: JobId, job: Job, newRows: seq<NewRow>) returns (run: seq<Action>)
    requires id !in s.jobs && FreshJob(job, newRows)
    ensures IsRun(s, run) && |run| > 0 && run[0] == CreateJob(id, job, newRows) && OnlyJob(s, After(s, run), id)
    ensures id in After(s, run).jobs && |run| == 1 + |newRows|
    ensures forall k :: 1 <= k < |run| ==> run[k] == Act(id, StoreRow)
    ensures After(s, run).jobs[id].job == job && After(s, run).jobs[id].rows == InsertAll([], newRows)
  {
    hide FreshJob, InsertAll;
    var create := CreateJob(id, job, newRows);
    var s1 := Next(s, create);
    assert [create][1..] == [] && IsRun(s1, []) && After(s1, []) == s1;
    assert IsRun(s, [create]) && After(s, [create]) == s1;
    var rest := StoreAll(s1, id);
    RunsThen(s, [create], rest);
    run := [create] + rest;
  }
}
