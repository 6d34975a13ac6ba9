// Message ids: what a `sent` row records is what WhatsApp answered for it.
module BlastAnswers {
  import opened BlastModel
  import opened BlastRows
  import opened BlastMachine
  import opened BlastProgress
  import opened BlastSafety

  /** A `sent` row carries the id of a successful dispatch to its own recipient. */
  ghost predicate Answered(r: Row, answers: set<(Jid, string)>) {
    r.status == Sent ==> r.messageId.Some? && (r.jid, r.messageId.value) in answers
  }

  ghost predicate AnswersInv(l: Local) {
    && (forall i :: 0 <= i < |l.js.rows| ==> Answered(l.js.rows[i], l.js.log.answers))
    && (l.pc.Flight? && l.pc.phase.Accepted? && l.pc.pos < |l.pc.batch| ==>
          (l.pc.batch[l.pc.pos].jid, l.pc.phase.messageId) in l.js.log.answers)
  }

  lemma UpdateKeepsAnswers(rows: seq<Row>, jid: Jid, c: SetClause, answers: set<(Jid, string)>)
    requires forall i :: 0 <= i < |rows| ==> Answered(rows[i], answers)
    requires c.SetSent? ==> (jid, c.messageId) in answers
    ensures forall i :: 0 <= i < |rows| ==> Answered(UpdateRow(rows, jid, c)[i], answers)
  {
  }

  lemma BatchKeepsAnswers(l: Local, a: JobAction)
    requires AnswersInv(l) && Enabled(l, a) && !IsApi(a) && !a.Abort? && (l.pc.Walk? || l.pc.Flight?)
    ensures AnswersInv(Step(l, a))
  {
    hide UpdateRow;
    if a.MarkSending? {
      UpdateKeepsAnswers(l.js.rows, l.pc.batch[l.pc.pos].jid, SetSending, l.js.log.answers);
    } else if a.MarkSent? {
      UpdateKeepsAnswers(l.js.rows, l.pc.batch[l.pc.pos].jid, SetSent(l.pc.phase.messageId), l.js.log.answers);
    } else if a.MarkError? {
      UpdateKeepsAnswers(l.js.rows, l.pc.batch[l.pc.pos].jid, SetRetry(l.pc.phase.error), l.js.log.answers);
      UpdateKeepsAnswers(l.js.rows, l.pc.batch[l.pc.pos].jid, SetDlq(l.pc.phase.error), l.js.log.answers);
    } else {
      assert Step(l, a).js.rows == l.js.rows;
    }
  }

  lemma StepKeepsAnswers(l: Local, a: JobAction)
    requires AnswersInv(l) && Enabled(l, a)
    ensures AnswersInv(Step(l, a))
  {
    if !IsApi(a) && !a.Abort? && (l.pc.Walk? || l.pc.Flight?) {
      BatchKeepsAnswers(l, a);
    } else {
      hide PendingBatch, UpdateRow, Tally;
      assert forall i :: 0 <= i < |l.js.rows| ==> Answered(l.js.rows[i], l.js.log.answers);
    }
  }

  ghost predicate AllAnswered(s: State) {
    forall id :: id in s.jobs ==> AnswersInv(View(s, id))
  }

  lemma {:induction false} AnswersOverRun(s: State, acts: seq<Action>)
    requires Inv(s) && AllAnswered(s) && IsRun(s, acts)
    ensures AllAnswered(After(s, acts))
    decreases |acts|
  {
    hide AnswersInv, Step, Enabled, Inv;
    if acts != [] {
      NextKeepsAnswers(s, acts[0]);
      NextKeepsInv(s, acts[0]);
      AnswersOverRun(Next(s, acts[0]), acts[1..]);
    }
  }

  lemma NextKeepsAnswers(s: State, a: Action)
    requires Inv(s) && AllAnswered(s) && Allowed(s, a)
    ensures AllAnswered(Next(s, a))
  {
    hide Step, Enabled, JobInv;
    var s' := Next(s, a);
    if a.Act? {
      StepKeepsAnswers(View(s, a.id), a.act);
      ViewOfAct(s, a.id, a.act);
    }
    forall id | id in s'.jobs
      ensures AnswersInv(View(s', id))
    {
      if id in s.jobs && !(a.Act? && a.id == id) {
        assert AnswersInv(View(s, id));
        assert s'.jobs[id] == s.jobs[id];
      }
    }
  }

  /** In every reachable state a `sent` row records the message id of a
      successful dispatch to that very recipient. */
  lemma SentRowsCarryTheirAnswer(acts: seq<Action>, id: JobId, i: nat)
    requires IsRun(INITIAL, acts) && id in After(INITIAL, acts).jobs
    requires i < |After(INITIAL, acts).jobs[id].rows| && After(INITIAL, acts).jobs[id].rows[i].status == Sent
    ensures var js := After(INITIAL, acts).jobs[id];
      js.rows[i].messageId.Some? && (js.rows[i].jid, js.rows[i].messageId.value) in js.log.answers
  {
    assert Inv(INITIAL) by {
      Reachable([]);
    }
    AnswersOverRun(INITIAL, acts);
    assert AnswersInv(View(After(INITIAL, acts), id));
    assert Answered(After(INITIAL, acts).jobs[id].rows[i], After(INITIAL, acts).jobs[id].log.answers);
  }
}
