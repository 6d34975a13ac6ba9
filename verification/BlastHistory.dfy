// The history of a job is what its runs hold: how the ledger the theorems are
// stated with counts the actions taken, and the closing theorem in those terms.
module BlastHistory {
  import opened Wrappers
  import opened BlastModel
  import opened BlastRows
  import opened BlastMachine
  import opened BlastProgress
  import opened BlastSafety
  import opened BlastTheorems

  /** How many of the actions are steps of job `id` of that kind. */
  function Happened(acts: seq<Action>, id: JobId, kind: JobAction -> bool): nat {
    if acts == [] then 0
    else One(acts[0].Act? && acts[0].id == id && kind(acts[0].act)) + Happened(acts[1..], id, kind)
  }

  const LOST_STEP := (a: JobAction) => a.Abort?
  const DISPATCH := (a: JobAction) => a.Dispatch?
  const SETTLEMENT := (a: JobAction) => a.MarkSent? || a.MarkError?
  const REQUEUE := (a: JobAction) => a.RetryRequeue?
  const INSERT := (a: JobAction) => a.StoreRow?

  /** No row of the job is inserted after the job was claimed. */
  predicate NoLateInsert(acts: seq<Action>, id: JobId) {
    forall k, m :: 0 <= k < m < |acts| && acts[k].Act? && acts[k].id == id && acts[k].act.ClaimUpdate?
      ==> !(acts[m].Act? && acts[m].id == id && acts[m].act.StoreRow?)
  }

  /** What one step adds to the counts of the ledger. */
  ghost predicate Counts(l: Local, a: JobAction, log': Ledger)
    requires Enabled(l, a)
  {
    var log := l.js.log;
    && log'.aborts == log.aborts + One(a.Abort?)
    && log'.dispatched == log.dispatched + One(a.Dispatch?)
    && log'.settled == log.settled + One(a.MarkSent? || a.MarkError?)
    && log.requeues <= log'.requeues <= log.requeues + One(a.RetryRequeue?)
    && log'.lateRows == log.lateRows + One(a.StoreRow? && log.claimed && !l.js.inserting[0].skipped)
    && (log'.claimed <==> log.claimed || (a.ClaimUpdate? && l.js.job.status.JobPending?))
  }

  lemma BatchCounts(l: Local, a: JobAction)
    requires Enabled(l, a) && !IsApi(a) && !a.Abort? && (l.pc.Walk? || l.pc.Flight?)
    ensures Counts(l, a, BatchStep(l, a).js.log)
  {
    hide UpdateRow, Job.AttemptCap;
  }

  lemma LoopCounts(l: Local, a: JobAction)
    requires Enabled(l, a) && !IsApi(a) && !a.Abort? && !l.pc.Walk? && !l.pc.Flight?
    ensures Counts(l, a, LoopStep(l, a).js.log)
  {
    hide BulkUpdate, PendingBatch;
  }

  lemma ApiCounts(l: Local, a: JobAction)
    requires Enabled(l, a) && IsApi(a)
    ensures Counts(l, a, ApiStep(l.js, a).log)
  {
    hide BulkUpdate, InsertRow, Tally, RequeuedJids;
  }

  lemma {:induction false} StepCounts(l: Local, a: JobAction)
    requires Enabled(l, a)
    ensures Counts(l, a, Step(l, a).js.log)
  {
    hide BatchStep, LoopStep, ApiStep;
    if IsApi(a) {
      ApiCounts(l, a);
    } else if !a.Abort? {
      if l.pc.Walk? || l.pc.Flight? {
        BatchCounts(l, a);
      } else {
        LoopCounts(l, a);
      }
    }
  }

  function LogOf(s: State, id: JobId): Ledger {
    if id in s.jobs then s.jobs[id].log else EMPTY_LEDGER
  }

  /** The counts over any run: each lost step, dispatch and settlement once. */
  lemma {:induction false} HistoryCounts(s: State, acts: seq<Action>, id: JobId)
    requires IsRun(s, acts)
    ensures var log, log' := LogOf(s, id), LogOf(After(s, acts), id);
      && log'.aborts == log.aborts + Happened(acts, id, LOST_STEP)
      && log'.dispatched == log.dispatched + Happened(acts, id, DISPATCH)
      && log'.settled == log.settled + Happened(acts, id, SETTLEMENT)
      && log.requeues <= log'.requeues <= log.requeues + Happened(acts, id, REQUEUE)
    decreases |acts|
  {
    hide Step, Enabled;
    if acts != [] {
      var a := acts[0];
      if a.Act? && a.id == id {
        StepCounts(View(s, id), a.act);
      }
      HistoryCounts(Next(s, a), acts[1..], id);
    }
  }

  /** Without a late insert no row is counted as late. */
  lemma {:induction false} NoLateRows(s: State, acts: seq<Action>, id: JobId)
    requires IsRun(s, acts) && NoLateInsert(acts, id)
    requires LogOf(s, id).claimed ==> Happened(acts, id, INSERT) == 0
    ensures LogOf(After(s, acts), id).lateRows == LogOf(s, id).lateRows
    decreases |acts|
  {
    hide Step, Enabled;
    if acts != [] {
      var a := acts[0];
      if a.Act? && a.id == id {
        StepCounts(View(s, id), a.act);
        if a.act.ClaimUpdate? {
          forall m | 0 < m < |acts| ensures !(acts[m].Act? && acts[m].id == id && acts[m].act.StoreRow?) {
          }
          NoneHappened(acts[1..], id);
        }
      }
      assert forall k :: 0 <= k < |acts[1..]| ==> acts[1..][k] == acts[k + 1];
      NoLateRows(Next(s, a), acts[1..], id);
    }
  }

  lemma {:induction false} NoneHappened(acts: seq<Action>, id: JobId)
    requires forall k :: 0 <= k < |acts| ==> !(acts[k].Act? && acts[k].id == id && acts[k].act.StoreRow?)
    ensures Happened(acts, id, INSERT) == 0
  {
    if acts != [] {
      NoneHappened(acts[1..], id);
    }
  }

  /** A run that loses no step of the job, requeues none of its rows and inserts
      none after its claim closes it as documented: nothing unsettled, `completed`
      iff every recipient was sent to or skipped, `completed_with_failures` iff one
      is dead-lettered. */
  lemma {:induction false} CleanRunCloses(acts: seq<Action>, id: JobId)
    requires IsRun(INITIAL, acts) && id in Reached(acts).jobs
    requires var status := Reached(acts).jobs[id].job.status; status == Completed || status == CompletedWithFailures
    requires Happened(acts, id, LOST_STEP) == 0 && Happened(acts, id, REQUEUE) == 0 && NoLateInsert(acts, id)
    ensures var js := Reached(acts).jobs[id];
      && (forall i :: 0 <= i < |js.rows| ==>
           js.rows[i].status == Sent || js.rows[i].status == SkippedDup || js.rows[i].status == Dlq)
      && (js.job.status == Completed <==>
           forall i :: 0 <= i < |js.rows| ==> js.rows[i].status == Sent || js.rows[i].status == SkippedDup)
      && (js.job.status == CompletedWithFailures <==>
           exists i :: 0 <= i < |js.rows| && js.rows[i].status == Dlq)
  {
    hide IsRun, After;
    HistoryCounts(INITIAL, acts, id);
    NoLateRows(INITIAL, acts, id);
    CleanRows(acts, id);
    CleanJobCloses(acts, id);
  }

  /** Dispatches against settlements: no more than the lost steps and the one in the
      worker's hand go unsettled. */
  lemma {:induction false} DispatchesAreSettled(acts: seq<Action>, id: JobId)
    requires IsRun(INITIAL, acts) && id in Reached(acts).jobs
    ensures var made := Happened(acts, id, DISPATCH); var settled := Happened(acts, id, SETTLEMENT);
      settled <= made <= settled + Happened(acts, id, LOST_STEP) + 1
  {
    hide IsRun, After;
    HistoryCounts(INITIAL, acts, id);
    Budget(acts, id);
  }

  lemma Budget(acts: seq<Action>, id: JobId)
    requires IsRun(INITIAL, acts) && id in Reached(acts).jobs
    ensures var log := Reached(acts).jobs[id].log;
      log.settled <= log.dispatched <= log.settled + log.aborts + 1
  {
    Reachable(acts);
    assert JobInv(View(Reached(acts), id));
  }
}
