// Safety of the whole blast system over every run: any interleaving of the
// worker, create, cancel and retry calls, lost steps and crashes.
module BlastSafety {
  import opened BlastModel
  import opened BlastMachine
  import opened BlastRowsInvariant
  import opened BlastCounters
  import opened BlastProgress

  /** At most one job runs, and it is the one the worker is on. */
  ghost predicate OneRunning(s: State) {
    match s.worker
    case Idle => forall i, j :: Running(s, i) && Running(s, j) ==> i == j
    case Polling => forall i :: i in s.jobs ==> !Running(s, i)
    case On(id, pc) =>
      && id in s.jobs && !pc.Off?
      && (forall i :: Running(s, i) ==> i == id)
      && (pc.Selected? ==> !Running(s, id))
  }

  ghost predicate Inv(s: State) {
    && OneRunning(s)
    && forall id :: id in s.jobs ==> JobInv(View(s, id))
  }

  /** Resume and Pick put the worker on a job without touching any table. */
  lemma {:induction false} EnterKeepsJobInv(js: JobState, pc: Pc)
    requires JobInv(Local(js, Off))
    requires pc.Selected? || (pc.Begin? && js.job.status.JobRunning?)
    ensures JobInv(Local(js, pc))
  {
    assert forall jid :: !InHand(pc, jid) && !InHand(Off, jid);
  }

  lemma {:induction false} FreshJobInv(job: Job, newRows: seq<NewRow>)
    requires FreshJob(job, newRows)
    ensures JobInv(Local(JobState(job, [], newRows, map[], EMPTY_LEDGER), Off))
  {
  }

  lemma {:induction false} ActKeepsInv(s: State, id: JobId, act: JobAction)
    requires Inv(s) && Allowed(s, Act(id, act))
    ensures Inv(Next(s, Act(id, act)))
  {
    hide Step, Enabled, RowsInv, CountersInv, BudgetInv, StuckInv, StatusInv, DrainInv, CancelInv, DeliveryInv;
    var s' := Next(s, Act(id, act));
    var l := View(s, id);
    StepKeepsJobInv(l, act);
    ViewOfAct(s, id, act);
    OneRunningKept(s, id, act);
  }

  lemma {:induction false} OneRunningKept(s: State, id: JobId, act: JobAction)
    requires OneRunning(s) && Allowed(s, Act(id, act)) && StatusInv(View(s, id))
    ensures OneRunning(Next(s, Act(id, act)))
  {
    hide StatusInv, Step;
    var s' := Next(s, Act(id, act));
    StatusStep(View(s, id), act);
    assert forall o :: o != id ==> Running(s', o) == Running(s, o);
    assert Running(s', id) ==> Running(s, id) || (act.ClaimUpdate? && View(s, id).pc.Selected?);
  }

  lemma {:induction false} ViewOfAct(s: State, id: JobId, act: JobAction)
    requires OneRunning(s) && Allowed(s, Act(id, act))
    ensures View(Next(s, Act(id, act)), id) == Step(View(s, id), act)
    ensures forall o :: o in s.jobs && o != id ==> View(Next(s, Act(id, act)), o) == View(s, o)
  {
  }

  /** Only a claim makes a job running. */
  lemma {:induction false} StatusStep(l: Local, a: JobAction)
    requires Enabled(l, a) && StatusInv(l)
    ensures Step(l, a).js.job.status.JobRunning? ==> l.js.job.status.JobRunning? || a.ClaimUpdate?
    ensures !IsApi(a) && !Step(l, a).pc.Off? ==> !Step(l, a).pc.Selected?
  {
    if !IsApi(a) && !a.Abort? {
      if l.pc.Walk? || l.pc.Flight? {
        assert Step(l, a) == BatchStep(l, a);
      } else {
        assert Step(l, a) == LoopStep(l, a);
      }
    }
  }

  lemma {:induction false} NextKeepsInv(s: State, a: Action)
    requires Inv(s) && Allowed(s, a)
    ensures Inv(Next(s, a))
  {
    hide JobInv, Enabled, Step;
    var s' := Next(s, a);
    match a
    case Act(id, act) => ActKeepsInv(s, id, act);
    case CreateJob(id, job, newRows) =>
      FreshJobInv(job, newRows);
      forall o | o in s'.jobs ensures JobInv(View(s', o)) {
        if o != id {
          assert View(s', o) == View(s, o);
        }
      }
      assert forall o :: Running(s', o) <==> Running(s, o);
    case Resume(id) =>
      assert View(s, id) == Local(s.jobs[id], Off);
      EnterKeepsJobInv(s.jobs[id], Begin);
      assert forall o :: Running(s', o) <==> Running(s, o);
      assert forall o :: o in s.jobs && o != id ==> View(s', o) == View(s, o);
    case Pick(id, now) =>
      assert View(s, id) == Local(s.jobs[id], Off);
      EnterKeepsJobInv(s.jobs[id], Selected);
      assert forall o :: o in s.jobs && o != id ==> View(s', o) == View(s, o);
    case _ =>
      assert forall o :: o in s.jobs ==> View(s', o) == View(s, o);
  }

  lemma {:induction false} InvOverRun(s: State, acts: seq<Action>)
    requires Inv(s) && IsRun(s, acts)
    ensures Inv(After(s, acts))
    decreases |acts|
  {
    if acts != [] {
      NextKeepsInv(s, acts[0]);
      InvOverRun(Next(s, acts[0]), acts[1..]);
    }
  }

  lemma Reachable(acts: seq<Action>)
    requires IsRun(INITIAL, acts)
    ensures Inv(After(INITIAL, acts))
  {
    InvOverRun(INITIAL, acts);
  }

  // ------------------------------------------------------------ joining runs

  lemma {:induction false} RunThen(s: State, acts: seq<Action>, a: Action)
    requires IsRun(s, acts) && Allowed(After(s, acts), a)
    ensures IsRun(s, acts + [a]) && After(s, acts + [a]) == Next(After(s, acts), a)
    decreases |acts|
  {
    if acts == [] {
      assert (acts + [a])[1..] == [];
    } else {
      assert (acts + [a])[1..] == acts[1..] + [a];
      RunThen(Next(s, acts[0]), acts[1..], a);
    }
  }

  lemma {:induction false} RunsThen(s: State, first: seq<Action>, more: seq<Action>)
    requires IsRun(s, first) && IsRun(After(s, first), more)
    ensures IsRun(s, first + more) && After(s, first + more) == After(After(s, first), more)
    decreases |first|
  {
    if first == [] {
      assert first + more == more;
    } else {
      assert (first + more)[1..] == first[1..] + more;
      RunsThen(Next(s, first[0]), first[1..], more);
    }
  }
}
