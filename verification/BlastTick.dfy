// One tick of the worker over the tables, as a run of the whole system.
module BlastTick {
  import opened Wrappers
  import opened BlastModel
  import opened BlastRows
  import opened BlastMachine
  import opened BlastProgress
  import opened BlastHalting
  import opened BlastMoves
  import opened BlastSafety
  import opened BlastStore
  import opened BlastWorker

  /** The tables hold the jobs and rows of the system state. */
  ghost predicate Mirrors(db: Store, s: State)
    reads db
  {
    && db.jobs.Keys == s.jobs.Keys && db.recipients.Keys == s.jobs.Keys
    && forall id :: id in s.jobs ==> db.jobs[id] == s.jobs[id].job && db.recipients[id] == s.jobs[id].rows
  }

  ghost predicate JobsAre(jobs: map<JobId, Job>, s: State) {
    jobs.Keys == s.jobs.Keys && forall id :: id in s.jobs ==> jobs[id] == s.jobs[id].job
  }

  ghost predicate RowsAreThose(recipients: map<JobId, seq<Row>>, s: State) {
    recipients.Keys == s.jobs.Keys && forall id :: id in s.jobs ==> recipients[id] == s.jobs[id].rows
  }

  lemma MirrorsBoth(db: Store, s: State)
    ensures Mirrors(db, s) <==> JobsAre(db.jobs, s) && RowsAreThose(db.recipients, s)
  {
  }

  /** One job of the state gets another job row, or other recipient rows. */
  lemma JobReplaced(jobs: map<JobId, Job>, recipients: map<JobId, seq<Row>>, s: State, id: JobId, js: JobState)
    requires JobsAre(jobs, s) && RowsAreThose(recipients, s) && id in s.jobs
    ensures JobsAre(jobs[id := js.job], s.(jobs := s.jobs[id := js]))
    ensures RowsAreThose(recipients[id := js.rows], s.(jobs := s.jobs[id := js]))
    ensures js.rows == s.jobs[id].rows ==> RowsAreThose(recipients, s.(jobs := s.jobs[id := js]))
    ensures js.job == s.jobs[id].job ==> JobsAre(jobs, s.(jobs := s.jobs[id := js]))
  {
  }

  /** A worker run of one job is a run of the system that touches only that job. */
  lemma {:induction false} LiftRun(s: State, id: JobId, acts: seq<JobAction>) returns (run: seq<Action>)
    requires Inv(s) && s.worker.On? && s.worker.id == id
    requires WorkerRun(View(s, id), acts)
    ensures IsRun(s, run)
    ensures var end := WorkerEnd(View(s, id), acts);
      After(s, run) == State(s.jobs[id := end.js], if end.pc.Off? then Idle else On(id, end.pc))
    decreases |acts|
  {
    hide Step, Enabled, JobInv;
    if acts == [] {
      run := [];
      assert s.jobs[id := s.jobs[id]] == s.jobs;
    } else {
      var a := Act(id, acts[0]);
      var l' := Step(View(s, id), acts[0]);
      assert Allowed(s, a);
      ViewOfAct(s, id, acts[0]);
      NextKeepsInv(s, a);
      var s' := Next(s, a);
      if l'.pc.Off? {
        if acts[1..] != [] {
          OffIsOver(l', acts[1]);
        }
        run := [a];
        assert run[1..] == [];
      } else {
        var rest := LiftRun(s', id, acts[1..]);
        run := [a] + rest;
        assert run[1..] == rest;
        assert s.jobs[id := l'.js][id := WorkerEnd(l', acts[1..]).js] == s.jobs[id := WorkerEnd(l', acts[1..]).js];
      }
    }
  }

  /** Rows left `sending` are pending again, and the others as they were. */
  function Unstuck(rows: seq<Row>): seq<Row> {
    seq(|rows|, i requires 0 <= i < |rows| =>
      if rows[i].status == Sending then rows[i].(status := Pending) else rows[i])
  }

  /** `tick_once`: the oldest running job is worked off, or else the oldest due
      pending job is claimed, its `sending` rows reset, and worked off, or else
      nothing happens; no other job changes. Whatever dispatch answers, the tick is
      a run of the system and leaves the worker idle. */
  method TickOnce(db: Store, now: int, ghost s: State) returns (ghost did: Option<JobId>, ghost run: seq<Action>)
    requires Inv(s) && s.worker.Idle? && Mirrors(db, s)
    modifies db
    ensures did == None ==>
      && db.jobs == old(db.jobs) && db.recipients == old(db.recipients)
      && !SomeRunning(old(db.jobs)) && NoneClaimable(old(db.jobs), now)
    ensures did.Some? ==>
      var id := did.value;
      && id in old(db.jobs) && id in old(db.recipients) && OthersKept(db, id)
      && if SomeRunning(old(db.jobs)) then
           && OldestToResume(old(db.jobs), id)
           && Worked(old(db.jobs)[id], old(db.recipients)[id], db.jobs[id], db.recipients[id], now)
         else
           && OldestClaimable(old(db.jobs), id, now)
           && Worked(old(db.jobs)[id].(status := JobRunning, startedAt := Some(now)), Unstuck(old(db.recipients)[id]),
                     db.jobs[id], db.recipients[id], now)
    ensures IsRun(s, run) && After(s, run).worker.Idle?
    ensures Mirrors(db, After(s, run)) && Inv(After(s, run))
  {
    hide Inv, Allowed, Next, IsRun, After, Worked, Unstuck, Job.Due, SomeRunning, OldestToResume, OldestClaimable,
      NoneClaimable, Mirrors, JobsAre, RowsAreThose;
    MirrorsBoth(db, s);
    var job := db.RunningJob();
    did := job;
    if job.Some? {
      ResumeAllowed(db.jobs, s, job.value);
      run := ResumeTick(db, job.value, now, s);
      return;
    }
    NothingRuns(db.jobs, s);
    job := db.ClaimNextDue(now);
    did := job;
    if job.Some? {
      ClaimAllowed(old(db.jobs), s, job.value, now);
      var id := job.value;
      ghost var js := s.jobs[id];
      JobReplaced(old(db.jobs), db.recipients, s, id, js.(job := db.jobs[id]));
      MirrorsBoth(db, s.(jobs := s.jobs[id := js.(job := db.jobs[id])]));
      run := ClaimTick(db, job.value, now, s);
    } else {
      MirrorsBoth(db, s);
      run := IdleTick(s);
    }
  }

  lemma ResumeAllowed(jobs: map<JobId, Job>, s: State, id: JobId)
    requires JobsAre(jobs, s) && s.worker.Idle? && OldestToResume(jobs, id)
    ensures Allowed(s, Resume(id))
  {
  }

  lemma NothingRuns(jobs: map<JobId, Job>, s: State)
    requires JobsAre(jobs, s) && s.worker.Idle? && !SomeRunning(jobs)
    ensures Allowed(s, NothingRunning)
  {
  }

  lemma ClaimAllowed(jobs: map<JobId, Job>, s: State, id: JobId, now: int)
    requires JobsAre(jobs, s) && Allowed(s, NothingRunning) && OldestClaimable(jobs, id, now)
    ensures Allowed(Next(s, NothingRunning), Pick(id, now))
    ensures id in s.jobs && id in jobs && jobs[id] == s.jobs[id].job
  {
    hide Job.Due;
  }

  /** The poll finds nothing due. */
  lemma IdleTick(s: State) returns (run: seq<Action>)
    requires Allowed(s, NothingRunning)
    ensures IsRun(s, run) && After(s, run) == s
  {
    run := [NothingRunning, PollFails];
    assert run[1..] == [PollFails] && [PollFails][1..] == [];
  }

  /** `process_job` of the job the worker is on, from the start to the idle worker. */
  method WorkOn(db: Store, id: JobId, now: int, ghost s: State) returns (ghost run: seq<Action>)
    requires Inv(s) && s.worker == On(id, Begin) && id in s.jobs && Mirrors(db, s) && JobInv(View(s, id))
    requires db.Valid() && s.jobs[id].job.status.JobRunning?
    modifies db
    ensures OthersKept(db, id) && id in db.jobs && id in db.recipients
    ensures Worked(old(db.jobs)[id], old(db.recipients)[id], db.jobs[id], db.recipients[id], now)
    ensures IsRun(s, run) && After(s, run).worker.Idle?
    ensures Mirrors(db, After(s, run)) && Inv(After(s, run))
  {
    hide JobInv, Inv, Step, Enabled, WorkerRun, WorkerEnd, Worked;
    ghost var acts, l' := ProcessJob(db, id, now, View(s, id));
    run := LiftRun(s, id, acts);
    InvOverRun(s, run);
  }

  /** The tick of a running job. */
  method ResumeTick(db: Store, id: JobId, now: int, ghost s: State) returns (ghost run: seq<Action>)
    requires Inv(s) && s.worker.Idle? && Mirrors(db, s) && Allowed(s, Resume(id))
    modifies db
    ensures OthersKept(db, id) && id in db.jobs && id in db.recipients
    ensures Worked(old(db.jobs)[id], old(db.recipients)[id], db.jobs[id], db.recipients[id], now)
    ensures IsRun(s, run) && After(s, run).worker.Idle?
    ensures Mirrors(db, After(s, run)) && Inv(After(s, run))
  {
    hide JobInv, Step, Enabled, WorkerRun, WorkerEnd, Worked;
    ghost var s1 := Next(s, Resume(id));
    NextKeepsInv(s, Resume(id));
    ghost var more := WorkOn(db, id, now, s1);
    assert ([Resume(id)] + more)[1..] == more;
    run := [Resume(id)] + more;
  }

  /** The machine's steps of a claim: poll, pick, claim, reset. */
  lemma {:induction false} ClaimRun(s: State, id: JobId, now: int) returns (run: seq<Action>, s': State)
    requires Inv(s) && s.worker.Idle? && id in s.jobs
    requires Allowed(s, NothingRunning) && Allowed(Next(s, NothingRunning), Pick(id, now))
    ensures IsRun(s, run) && After(s, run) == s' && Inv(s') && s'.worker == On(id, Begin)
    ensures s'.jobs.Keys == s.jobs.Keys && forall o :: o in s.jobs && o != id ==> s'.jobs[o] == s.jobs[o]
    ensures s'.jobs[id].job == s.jobs[id].job.(status := JobRunning, startedAt := Some(now))
    ensures s'.jobs[id].rows == BulkUpdate(s.jobs[id].rows, ResetSending)
  {
    hide JobInv;
    run, s' := [], s;
    run, s' := Advance(s, run, s', NothingRunning);
    run, s' := Advance(s, run, s', Pick(id, now));
    run, s' := Advance(s, run, s', Act(id, ClaimUpdate(now)));
    run, s' := Advance(s, run, s', Act(id, ResetRows));
  }

  lemma ResetIsUnstuck(rows: seq<Row>)
    ensures BulkUpdate(rows, ResetSending) == Unstuck(rows)
  {
  }

  /** The tick of a pending job whose claim has just gone through. */
  method ClaimTick(db: Store, id: JobId, now: int, ghost s: State) returns (ghost run: seq<Action>)
    requires Inv(s) && s.worker.Idle? && id in s.jobs
    requires Allowed(s, NothingRunning) && Allowed(Next(s, NothingRunning), Pick(id, now))
    requires var js := s.jobs[id]; var job := js.job.(status := JobRunning, startedAt := Some(now));
      Mirrors(db, s.(jobs := s.jobs[id := js.(job := job)]))
    modifies db
    ensures OthersKept(db, id) && id in old(db.jobs) && id in db.jobs && id in db.recipients
    ensures Worked(old(db.jobs)[id], Unstuck(old(db.recipients)[id]), db.jobs[id], db.recipients[id], now)
    ensures IsRun(s, run) && After(s, run).worker.Idle?
    ensures Mirrors(db, After(s, run)) && Inv(After(s, run))
  {
    hide JobInv, WorkerRun, WorkerEnd, Step, Enabled, Allowed, Next, IsRun, After, BulkUpdate, OneRunning, Worked,
      Unstuck;
    ghost var s';
    run, s' := ClaimRun(s, id, now);
    assert s'.jobs == s.jobs[id := s'.jobs[id]];
    ResetClaimed(db, id, s, s');
    ghost var more := WorkOn(db, id, now, s');
    RunsThen(s, run, more);
    run := run + more;
  }

  /** The reset that follows a claim. */
  method ResetClaimed(db: Store, id: JobId, ghost s: State, ghost s': State)
    requires id in s.jobs && id in s'.jobs && s'.jobs == s.jobs[id := s'.jobs[id]]
    requires s'.jobs[id].rows == BulkUpdate(s.jobs[id].rows, ResetSending)
    requires Mirrors(db, s.(jobs := s.jobs[id := s.jobs[id].(job := s'.jobs[id].job)]))
    modifies db
    ensures Mirrors(db, s') && OthersKept(db, id) && db.jobs == old(db.jobs)
    ensures id in old(db.recipients) && id in db.recipients && db.recipients[id] == Unstuck(old(db.recipients)[id])
  {
    hide BulkUpdate, Unstuck, Mirrors;
    ghost var claimed := s.(jobs := s.jobs[id := s.jobs[id].(job := s'.jobs[id].job)]);
    MirrorsBoth(db, claimed);
    ResetIsUnstuck(s.jobs[id].rows);
    JobReplaced(db.jobs, db.recipients, claimed, id, s'.jobs[id]);
    assert claimed.jobs[id := s'.jobs[id]] == s'.jobs;
    db.ResetSendingRecipients(id);
    MirrorsBoth(db, s');
  }

  lemma {:induction false} Advance(s: State, run: seq<Action>, at: State, a: Action) returns (run': seq<Action>,
                                   at': State)
    requires Inv(at) && IsRun(s, run) && After(s, run) == at && Allowed(at, a)
    ensures Inv(at') && IsRun(s, run') && After(s, run') == at' && at' == Next(at, a)
  {
    hide Inv, Next, Allowed;
    RunThen(s, run, a);
    NextKeepsInv(at, a);
    run', at' := run + [a], Next(at, a);
  }
}
