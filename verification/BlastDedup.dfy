// Dedup across the jobs of a session: which recipients a create call accepts,
// and when it accepts one that an earlier job already delivered to.
module BlastDedup {
  import opened Wrappers
  import opened BlastModel
  import opened BlastRows
  import opened BlastMachine
  import opened BlastRowsInvariant
  import opened BlastCounters
  import opened BlastProgress
  import opened BlastSafety
  import opened BlastGaps
  import opened BlastStore
  import opened BlastCreate
  import opened BlastTick

  // ------------------------------------------------------- what dedup can see

  /** Every delivery of this job to the recipient was lost, or is still in the
      worker's hand: none of them shows in the rows. */
  ghost predicate Unseen(l: Local, jid: Jid) {
    l.js.log.delivered[jid] == l.js.log.lostDelivered[jid] + One(AcceptedInHand(l.pc, jid))
  }

  ghost predicate UnseenInSession(s: State, session: string, jid: Jid) {
    forall o :: o in s.jobs && s.jobs[o].job.session == session ==> Unseen(View(s, o), jid)
  }

  lemma NotSentIffUnseen(l: Local, jid: Jid)
    requires JobInv(l)
    ensures !IsSent(l.js.rows, jid) <==> Unseen(l, jid)
  {
    hide RowsInv, CountersInv, BudgetInv, StuckInv, StatusInv, DrainInv, CancelInv, IsSent, AcceptedInHand;
  }

  /** The dedup filter lets a candidate through if and only if every delivery to
      it by any job of the session was lost or is still in hand. */
  lemma {:induction false} AcceptedIff(db: Store, s: State, session: string, candidates: seq<Jid>, jid: Jid)
    requires Mirrors(db, s) && Inv(s)
    ensures jid in Without(candidates, db.SentAmong(session, candidates)) <==>
      jid in candidates && UnseenInSession(s, session, jid)
  {
    hide JobInv, Unseen, IsSent, OneRunning;
    WithoutMembers(candidates, db.SentAmong(session, candidates));
    forall o | o in s.jobs ensures !IsSent(s.jobs[o].rows, jid) <==> Unseen(View(s, o), jid) {
      NotSentIffUnseen(View(s, o), jid);
    }
    assert UnseenInSession(s, session, jid) <==> !db.SentInSession(session, jid);
  }

  /** An accepted recipient had been delivered to by a job of the session already
      if and only if that success was lost or is still in hand. */
  lemma {:induction false} AcceptedAgainIff(db: Store, s: State, session: string, candidates: seq<Jid>, jid: Jid,
                                            o: JobId)
    requires Mirrors(db, s) && Inv(s) && jid in Without(candidates, db.SentAmong(session, candidates))
    requires o in s.jobs && s.jobs[o].job.session == session
    ensures s.jobs[o].log.delivered[jid] > 0 <==>
      s.jobs[o].log.lostDelivered[jid] > 0 || AcceptedInHand(PcOf(s, o), jid)
  {
    hide Inv, AcceptedInHand, IsSent;
    AcceptedIff(db, s, session, candidates, jid);
    assert Unseen(View(s, o), jid);
  }

  // ------------------------------------------------ what a create call stores

  predicate HasPending(rows: seq<Row>, jid: Jid) {
    exists i :: 0 <= i < |rows| && rows[i].jid == jid && rows[i].status == Pending
  }

  lemma {:induction false} StoredPending(job: Job, rows: seq<Row>, total: nat, skippedDup: nat, seen: set<Jid>,
                                         accepted: seq<Jid>, jid: Jid)
    requires Stored(job, rows, total, skippedDup, seen, accepted)
    ensures HasPending(rows, jid) <==> jid in accepted
  {
    if jid in accepted {
      var i :| 0 <= i < |accepted| && accepted[i] == jid;
      assert rows[i].jid == jid && rows[i].status == Pending;
    }
  }

  // --------------------------------------------- two deliveries to a recipient

  /** A second job for recipient 7 is created beside job 0; its row is still to be inserted. */
  lemma {:induction false} CreatesSecond(run: seq<Action>, l: Local) returns (run': seq<Action>, l': Local)
    requires At(run, l) && l.pc.Off?
    ensures At(run', l', 1, map[0 := l.js]) && run' == run + [CreateJob(1, SampleJob(1), [NewRow(7, false)])]
    ensures l' == Local(JobState(SampleJob(1), [], [NewRow(7, false)], map[], EMPTY_LEDGER), Off)
  {
    var a := CreateJob(1, SampleJob(1), [NewRow(7, false)]);
    assert CountAccepted([NewRow(7, false)]) == 1;
    RunThen(INITIAL, run, a);
    run' := run + [a];
    l' := Local(JobState(SampleJob(1), [], [NewRow(7, false)], map[], EMPTY_LEDGER), Off);
    assert map[][0 := l.js][1 := l'.js] == map[0 := l.js][1 := l'.js];
  }

  /** With the worker idle, either of two jobs may be looked at. */
  lemma {:induction false} LookAt(run: seq<Action>, l: Local, id: JobId, other: JobId, js: JobState)
    requires At(run, l, id, map[other := js]) && l.pc.Off? && id != other
    ensures At(run, Local(js, Off), other, map[id := l.js])
  {
    assert map[other := js][id := l.js] == map[id := l.js][other := js];
  }

  lemma SameJobFirst(l: Local, l': Local, id: JobId, others: Others)
    requires First(l, id, others) && l'.js.job == l.js.job
    ensures First(l', id, others)
  {
  }

  /** The one recipient of a new job is stored, claimed and delivered to. */
  lemma {:induction false} Delivers(run: seq<Action>, l: Local, id: JobId,
                                    others: Others) returns (run': seq<Action>, l': Local)
    requires At(run, l, id, others) && First(l, id, others)
    requires l == Local(JobState(SampleJob(1), [], [NewRow(7, false)], map[], EMPTY_LEDGER), Off)
    ensures At(run', l', id, others) && run <= run' && l'.pc == Flight([Snap(7, 0)], 0, Accepted("m"))
    ensures |l'.js.rows| == 1 && l'.js.rows[0].jid == 7 && l'.js.log.delivered[7] == 1
    ensures l'.js.job == SampleJob(1).(status := JobRunning, startedAt := Some(0))
  {
    hide At, First;
    run', l' := Go(run, l, StoreRow, id, others);
    assert l'.js.rows == InsertRow([], NewRow(7, false));
    assert First(l', id, others) by {
      SameJobFirst(l, l', id, others);
    }
    run', l' := Claims(run', l', id, others);
    run', l' := Sends(run', l', Delivered("m"), id, others);
  }

  lemma UnseenWhenNotSent(run: seq<Action>, l: Local)
    requires At(run, l) && !IsSent(l.js.rows, 7)
    ensures UnseenInSession(Among(l), "s", 7)
  {
    hide IsRun, After, JobInv, Unseen, IsSent;
    Reachable(run);
    assert View(Among(l), 0) == l || l.pc.Off?;
    NotSentIffUnseen(View(Among(l), 0), 7);
  }

  /** Job 0 delivered to recipient 7 and lost the success. A second job asking for
      dedup accepts it, and it is delivered to again. */
  lemma {:induction false} LostSuccessIsRepeated()
    returns (before: seq<Action>, l0: Local, run: seq<Action>, l: Local)
    ensures At(before, l0) && l0.js.log.delivered[7] == 1 && UnseenInSession(Among(l0), "s", 7)
    ensures before + [CreateJob(1, SampleJob(1), [NewRow(7, false)])] <= run && SampleJob(1).session == "s"
    ensures At(run, l, 1, map[0 := l0.js]) && l.js.log.delivered[7] == 1
  {
    hide At, Inv, Unseen;
    before, l0 := ResumeStrandsRow();
    UnseenWhenNotSent(before, l0);
    run, l := CreatesSecond(before, l0);
    run, l := Delivers(run, l, 1, map[0 := l0.js]);
  }

  /** Job 0 delivers to its recipient and completes beside a second, equally old job. */
  lemma {:induction false} FirstDelivers(run: seq<Action>, l: Local,
                                         js: JobState) returns (run': seq<Action>, l': Local)
    requires At(run, l, 0, map[1 := js]) && js.job == SampleJob(1)
    requires l == Local(JobState(SampleJob(1), [], [NewRow(7, false)], map[], EMPTY_LEDGER), Off)
    ensures At(run', l', 0, map[1 := js]) && run <= run' && l'.pc.Off? && First(Local(js, Off), 1, map[0 := l'.js])
    ensures IsSent(l'.js.rows, 7) && l'.js.log.delivered[7] == 1
  {
    hide At;
    run', l' := Delivers(run, l, 0, map[1 := js]);
    run', l' := SettlesSent(run', l', 0, map[1 := js]);
    run', l' := EndsDrained(run', l', 0, map[1 := js]);
    run', l' := Closes(run', l', 0, map[1 := js]);
    assert l'.js.rows[0].jid == 7;
  }

  /** Two jobs for recipient 7 overlap: the second is created before the first
      delivers, so dedup accepts the recipient, and both deliver. */
  lemma {:induction false} OverlapIsRepeated()
    returns (before: seq<Action>, l0: Local, run: seq<Action>, l: Local, js: JobState)
    ensures At(before, l0) && UnseenInSession(Among(l0), "s", 7)
    ensures before + [CreateJob(1, SampleJob(1), [NewRow(7, false)])] <= run && SampleJob(1).session == "s"
    ensures At(run, l, 1, map[0 := js])
    ensures IsSent(js.rows, 7) && js.log.delivered[7] == 1 && l.js.log.delivered[7] == 1
  {
    hide At, First, Inv, Unseen;
    before, l0 := BlastGaps.Created(NewRow(7, false));
    UnseenWhenNotSent(before, l0);
    var second, first;
    run, second := CreatesSecond(before, l0);
    LookAt(run, second, 1, 0, l0.js);
    run, first := FirstDelivers(run, l0, second.js);
    js := first.js;
    LookAt(run, first, 0, 1, second.js);
    run, l := Delivers(run, second, 1, map[0 := js]);
  }
}
