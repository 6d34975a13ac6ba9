// An undisturbed worker halts: every step it takes lowers a natural number
// built from the attempts its job has left, whatever dispatch answers.
module BlastHalting {
  import opened Wrappers
  import opened BlastModel
  import opened BlastRows
  import opened BlastMachine
  import opened BlastRowsInvariant
  import opened BlastCounters
  import opened BlastProgress

  /** Attempts the pending and sending rows of a job still have. */
  function Left(l: Local): nat {
    Tally(AttemptsLeft(l.js.job.AttemptCap()), l.js.rows)
  }

  /** Steps to the next loop head or to the end. The first recipient of a batch
      ranks below the fetch that found it; the attempt it settles pays for the
      rest of its turn. */
  function Ahead(pc: Pc): int {
    match pc
    case Off => 0
    case Selected => 7
    case Claimed => 6
    case Begin => 5
    case BadBody => 1
    case CheckStatus => 4
    case Fetch => 3
    case Drained => 2
    case Closing(_) => 1
    case Walk(_, pos) => if pos == 0 then 2 else 5
    case Flight(_, pos, phase) =>
      var d := if pos == 0 then 3 else 0;
      match phase
      case Marked => 4 - d
      case Accepted(_) => 3 - d
      case Refused(_) => 3 - d
      case FailedCounted(_) => 2 - d
      case SentSettled => 9
      case DlqSettled => 9
  }

  function Rank(l: Local): int { 16 * Left(l) + Ahead(l.pc) }

  ghost predicate IsWorker(a: JobAction) { !IsApi(a) && !a.Abort? }

  /** Each settlement uses up an attempt; no worker step gives one back. */
  lemma {:induction false} AttemptsUsed(l: Local, a: JobAction)
    requires RowsInv(l) && Enabled(l, a) && IsWorker(a)
    ensures Left(Step(l, a)) + One(a.MarkSent? || a.MarkError?) <= Left(l)
  {
    hide Tally, UpdateRow;
    if WritesRow(a) {
      ClauseTallies(l, a);
      ClauseSends(l, a);
    } else if a.ResetRows? {
      TallyReset(l.js.rows, l.js.job.AttemptCap());
    } else {
      assert Step(l, a).js.rows == l.js.rows;
    }
    CapKept(l, a);
  }

  lemma ClauseSends(l: Local, a: JobAction)
    requires Enabled(l, a) && WritesRow(a)
    ensures Clause(l, a).SetSending? <==> a.MarkSending?
  {
  }

  lemma {:induction false} CapKept(l: Local, a: JobAction)
    requires Enabled(l, a)
    ensures Step(l, a).js.job.AttemptCap() == l.js.job.AttemptCap()
  {
    if !IsApi(a) && !a.Abort? {
      if l.pc.Walk? || l.pc.Flight? {
        assert Step(l, a) == BatchStep(l, a);
      } else {
        assert Step(l, a) == LoopStep(l, a);
      }
    }
  }

  lemma {:induction false} RankNat(l: Local)
    requires RowsInv(l)
    ensures Rank(l) >= 0
  {
    hide Tally;
    if Unsettled(l.pc) {
      var s, rows, cap := l.pc.batch[l.pc.pos], l.js.rows, l.js.job.AttemptCap();
      var i :| 0 <= i < |rows| && rows[i].jid == s.jid && rows[i].status == Sending && rows[i].attempts == s.attempts;
      assert RowOk(rows[i], cap);
      TallyZero(AttemptsLeft(cap), rows);
      assert Weight(AttemptsLeft(cap), rows[i]) > 0;
    }
  }

  /** The real measure: every worker step strictly lowers the rank. */
  lemma {:induction false} RankDrops(l: Local, a: JobAction)
    requires RowsInv(l) && Enabled(l, a) && IsWorker(a)
    ensures Rank(Step(l, a)) < Rank(l)
  {
    hide Left, RowOk, Untouched;
    AttemptsUsed(l, a);
    if l.pc.Walk? || l.pc.Flight? {
      assert Step(l, a) == BatchStep(l, a);
    } else {
      assert Step(l, a) == LoopStep(l, a);
    }
  }

  /** A worker on a job is never blocked: some step of its own is possible. */
  lemma {:induction false} NeverBlocked(l: Local)
    requires RowsInv(l) && !l.pc.Off?
    ensures exists a :: IsWorker(a) && Enabled(l, a)
  {
    var a := match l.pc
      case Selected => ClaimUpdate(0)
      case Claimed => ResetRows
      case Begin => CheckBody
      case BadBody => FailJob(0)
      case CheckStatus => ReadStatus
      case Fetch => FetchBatch
      case Drained => ReadCounters
      case Closing(_) => Finish(0)
      case Walk(batch, pos) => if pos < |batch| then MarkSending else EndBatch
      case Flight(_, _, Marked) => Dispatch(Rejected(""))
      case Flight(_, _, Accepted(_)) => MarkSent
      case Flight(_, _, Refused(_)) => IncrFailed
      case Flight(_, _, FailedCounted(_)) => MarkError
      case Flight(_, _, SentSettled) => IncrSent
      case _ => IncrDlq;
    assert IsWorker(a) && Enabled(l, a);
  }

  /** A worker that is off a job has no step on it. */
  lemma OffIsOver(l: Local, a: JobAction)
    requires l.pc.Off? && IsWorker(a)
    ensures !Enabled(l, a)
  {
  }

  /** Consecutive steps of the undisturbed worker, and where they end. */
  ghost predicate WorkerRun(l: Local, acts: seq<JobAction>)
    decreases |acts|
  {
    acts == [] || (IsWorker(acts[0]) && Enabled(l, acts[0]) && WorkerRun(Step(l, acts[0]), acts[1..]))
  }

  ghost function WorkerEnd(l: Local, acts: seq<JobAction>): Local
    requires WorkerRun(l, acts)
    decreases |acts|
  {
    if acts == [] then l else WorkerEnd(Step(l, acts[0]), acts[1..])
  }

  lemma {:induction false} WorkerRunThen(l: Local, acts: seq<JobAction>, more: seq<JobAction>)
    requires WorkerRun(l, acts) && WorkerRun(WorkerEnd(l, acts), more)
    ensures WorkerRun(l, acts + more) && WorkerEnd(l, acts + more) == WorkerEnd(WorkerEnd(l, acts), more)
    decreases |acts|
  {
    if acts == [] {
      assert acts + more == more;
    } else {
      assert (acts + more)[1..] == acts[1..] + more;
      WorkerRunThen(Step(l, acts[0]), acts[1..], more);
    }
  }

  /** A run of one job with no lost step, no requeue and no new row: what is left
      of the interference is cancels, reopens and status checks. */
  ghost predicate CalmRun(l: Local, acts: seq<JobAction>)
    decreases |acts|
  {
    acts == [] ||
    (Enabled(l, acts[0]) && !acts[0].Abort? && !acts[0].RetryRequeue? && !acts[0].StoreRow?
     && CalmRun(Step(l, acts[0]), acts[1..]))
  }

  ghost function WorkerSteps(acts: seq<JobAction>): nat {
    if acts == [] then 0 else (if IsWorker(acts[0]) then 1 else 0) + WorkerSteps(acts[1..])
  }

  ghost function Settlements(acts: seq<JobAction>): nat {
    if acts == [] then 0
    else (if acts[0].MarkSent? || acts[0].MarkError? then 1 else 0) + Settlements(acts[1..])
  }

  lemma {:induction false} ApiKeepsRank(l: Local, a: JobAction)
    requires Enabled(l, a) && IsApi(a) && !a.RetryRequeue? && !a.StoreRow?
    ensures Rank(Step(l, a)) == Rank(l) && Left(Step(l, a)) == Left(l)
  {
    hide Tally;
    assert Step(l, a).js.rows == l.js.rows;
  }

  /** Whatever dispatch answers and however cancels interleave, a calm run makes
      at most `Rank` worker steps, and settles at most one dispatch per attempt
      that was left when it started. */
  lemma {:induction false} CalmRunHalts(l: Local, acts: seq<JobAction>)
    requires JobInv(l) && CalmRun(l, acts)
    ensures WorkerSteps(acts) <= Rank(l)
    ensures Settlements(acts) <= Left(l)
    decreases |acts|
  {
    hide Step, Left, Rank, Enabled;
    RankNat(l);
    if acts != [] {
      var a := acts[0];
      StepKeepsJobInv(l, a);
      CalmRunHalts(Step(l, a), acts[1..]);
      if IsApi(a) {
        ApiKeepsRank(l, a);
      } else {
        RankDrops(l, a);
        AttemptsUsed(l, a);
      }
    }
  }
}
