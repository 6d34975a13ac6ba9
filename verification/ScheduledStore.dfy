// The table of scheduled sends, and one tick of the poller over it.
module ScheduledStore {
  import opened Wrappers
  import opened Timestamps
  import opened ScheduledSends

  class Schedule {
    var rows: map<RowId, Row>

    constructor ()
      ensures rows == map[]
    {
      rows := map[];
    }

    method Insert(id: RowId, session: string, sendAt: DateTime)
      requires id !in rows && sendAt.Valid()
      modifies this
      ensures rows == old(rows)[id := Row(session, Format(sendAt), Pending, None, None)]
    {
      rows := rows[id := Row(session, Format(sendAt), Pending, None, None)];
    }

    /** Compare and set: pending to sending. */
    method Claim(id: RowId) returns (won: bool)
      modifies this
      ensures won <==> id in old(rows) && old(rows)[id].status == Pending
      ensures rows == if won then old(rows)[id := old(rows)[id].(status := Sending)] else old(rows)
    {
      won := id in rows && rows[id].status == Pending;
      if won {
        rows := rows[id := rows[id].(status := Sending)];
      }
    }

    method MarkSent(id: RowId, messageId: string)
      modifies this
      ensures rows ==
        if id in old(rows) then old(rows)[id := Settled(old(rows)[id], Delivered(messageId))] else old(rows)
    {
      if id in rows {
        rows := rows[id := rows[id].(status := Sent, messageId := Some(messageId), error := None)];
      }
    }

    method MarkFailed(id: RowId, error: string)
      modifies this
      ensures rows == if id in old(rows) then old(rows)[id := Settled(old(rows)[id], Rejected(error))] else old(rows)
    {
      if id in rows {
        rows := rows[id := rows[id].(status := Failed, error := Some(error))];
      }
    }

    /** Cancels a row of the session that is still pending. */
    method CancelPending(session: string, id: RowId) returns (cancelled: bool)
      modifies this
      ensures cancelled <==> id in old(rows) && old(rows)[id].session == session && old(rows)[id].status == Pending
      ensures rows == if cancelled then old(rows)[id := old(rows)[id].(status := Cancelled)] else old(rows)
    {
      cancelled := id in rows && rows[id].session == session && rows[id].status == Pending;
      if cancelled {
        rows := rows[id := rows[id].(status := Cancelled)];
      }
    }
  }

  lemma FetchEffect(s: System, p: PollerId, due: seq<RowId>)
    requires Inv(s) && p !in s.pollers && DueBatch(s, due)
    ensures Enabled(s, FetchDue(p, due))
    ensures Next(s, FetchDue(p, due)) == s.(pollers := s.pollers[p := Poller(due, Racing, s.now)])
    ensures forall i :: 0 <= i < |due| ==> due[i] in s.rows && due[i] in s.traces && s.rows[due[i]].status == Pending
    ensures forall i, j :: 0 <= i < j < |due| ==> due[i] != due[j]
  {
    hide Format, DateTime.Unix, DateTime.Valid, TextLe, RowOk;
  }

  /** The poller is at the first row of its queue, at this stage. */
  predicate AtRow(s: System, p: PollerId, queue: seq<RowId>, stage: Stage) {
    && s.now.Valid() && p in s.pollers && s.pollers[p].queue == queue && s.pollers[p].stage == stage
    && queue != [] && queue[0] in s.rows && queue[0] in s.traces
  }

  /** Only the poller's queue and stage, and the trace of its row, may differ. */
  ghost predicate Moved(s: System, s': System, p: PollerId, queue: seq<RowId>, stage: Stage) {
    && s'.now == s.now && s'.traces.Keys == s.traces.Keys && p in s.pollers
    && s'.pollers == s.pollers[p := Poller(queue, stage, s.pollers[p].fetchedAt)]
  }

  lemma ClaimEffect(s: System, p: PollerId, queue: seq<RowId>)
    requires AtRow(s, p, queue, Racing) && s.rows[queue[0]].status == Pending
    ensures Enabled(s, Claim(p)) && Moved(s, Next(s, Claim(p)), p, queue, Won)
    ensures Next(s, Claim(p)).rows == s.rows[queue[0] := s.rows[queue[0]].(status := Sending)]
  {
    hide DateTime.Valid;
  }

  lemma DispatchEffect(s: System, p: PollerId, queue: seq<RowId>, outcome: Outcome)
    requires AtRow(s, p, queue, Won)
    ensures Enabled(s, Dispatch(p, outcome)) && Moved(s, Next(s, Dispatch(p, outcome)), p, queue, Answered(outcome))
    ensures Next(s, Dispatch(p, outcome)).rows == s.rows
  {
    hide DateTime.Valid;
  }

  lemma SettledEffect(s: System, p: PollerId, queue: seq<RowId>, outcome: Outcome)
    requires AtRow(s, p, queue, Answered(outcome))
    ensures Enabled(s, Settle(p)) && Moved(s, Next(s, Settle(p)), p, queue[1..], Racing)
    ensures Next(s, Settle(p)).rows == s.rows[queue[0] := Settled(s.rows[queue[0]], outcome)]
  {
    hide DateTime.Valid, Settled;
  }

  /** Claim, dispatch and settle of the pending row at the head of the queue. */
  lemma SettleEffect(s: System, p: PollerId, queue: seq<RowId>, outcome: Outcome) returns (run: seq<Action>)
    requires AtRow(s, p, queue, Racing) && s.rows[queue[0]].status == Pending
    ensures IsRun(s, run) && Moved(s, After(s, run), p, queue[1..], Racing)
    ensures After(s, run).rows == s.rows[queue[0] := Settled(s.rows[queue[0]].(status := Sending), outcome)]
  {
    hide DateTime.Valid, Enabled, Next, Settled, IsRun, After;
    ClaimEffect(s, p, queue);
    run := StartRun(s, Claim(p));
    var s1 := Next(s, Claim(p));
    DispatchEffect(s1, p, queue, outcome);
    RunThen(s, run, Dispatch(p, outcome));
    run := run + [Dispatch(p, outcome)];
    var s2 := Next(s1, Dispatch(p, outcome));
    SettledEffect(s2, p, queue, outcome);
    RunThen(s, run, Settle(p));
    run := run + [Settle(p)];
  }

  /** One fetched row: skipped when the claim is lost, else dispatched and settled. */
  method SendOne(db: Schedule, id: RowId, outcome: Outcome)
    modifies db
    ensures db.rows ==
      if id in old(db.rows) && old(db.rows)[id].status == Pending then
        old(db.rows)[id := Settled(old(db.rows)[id].(status := Sending), outcome)]
      else old(db.rows)
  {
    var won := db.Claim(id);
    if !won {
      return;
    }
    match outcome {
      case Delivered(messageId) => db.MarkSent(id, messageId);
      case Rejected(error) => db.MarkFailed(id, error);
    }
  }

  /** The first `n` fetched rows are settled by their answers; nothing else differs. */
  ghost predicate SettledSoFar(was: map<RowId, Row>, rows: map<RowId, Row>, due: seq<RowId>, outcomes: seq<Outcome>,
                               n: nat)
    requires n <= |due| == |outcomes|
  {
    && rows.Keys == was.Keys && (forall j :: 0 <= j < |due| ==> due[j] in was)
    && (forall i, j :: 0 <= i < j < |due| ==> due[i] != due[j])
    && (forall j :: 0 <= j < |due| ==> was[due[j]].status == Pending)
    && (forall j :: 0 <= j < n ==> rows[due[j]] == Settled(was[due[j]].(status := Sending), outcomes[j]))
    && (forall j :: n <= j < |due| ==> rows[due[j]] == was[due[j]])
    && (forall id :: id in was && id !in due ==> rows[id] == was[id])
  }

  lemma NoneSettled(rows: map<RowId, Row>, due: seq<RowId>, outcomes: seq<Outcome>)
    requires |due| == |outcomes|
    ensures (forall i, j :: 0 <= i < j < |due| ==> due[i] != due[j])
      && (forall j :: 0 <= j < |due| ==> due[j] in rows && rows[due[j]].status == Pending)
      ==> SettledSoFar(rows, rows, due, outcomes, 0)
  {
  }

  lemma OneMoreSettled(was: map<RowId, Row>, rows: map<RowId, Row>, due: seq<RowId>, outcomes: seq<Outcome>, n: nat)
    requires n < |due| == |outcomes| && SettledSoFar(was, rows, due, outcomes, n)
    ensures due[n] in rows && rows[due[n]].status == Pending
    ensures var row := Settled(rows[due[n]].(status := Sending), outcomes[n]);
      SettledSoFar(was, rows[due[n] := row], due, outcomes, n + 1)
  {
    hide Settled;
  }

  lemma AllSettled(was: map<RowId, Row>, rows: map<RowId, Row>, due: seq<RowId>, outcomes: seq<Outcome>)
    requires |due| == |outcomes| && SettledSoFar(was, rows, due, outcomes, |due|)
    ensures rows.Keys == was.Keys
    ensures forall i :: 0 <= i < |due| ==>
      due[i] in was && rows[due[i]] == Settled(was[due[i]].(status := Sending), outcomes[i])
    ensures forall id :: id in was && id !in due ==> rows[id] == was[id]
  {
  }

  lemma PollerMoved(s: System, at: System, at': System, p: PollerId, due: seq<RowId>, i: nat)
    requires i < |due| && at.pollers == s.pollers[p := Poller(due[i..], Racing, s.now)]
    requires Moved(at, at', p, due[i..][1..], Racing)
    ensures at'.pollers == s.pollers[p := Poller(due[i + 1..], Racing, s.now)]
    ensures at'.now == at.now && at'.traces.Keys == at.traces.Keys
  {
    assert due[i..][1..] == due[i + 1..];
  }

  /** The pending rows whose stored time is not after the clock's. */
  function DueIds(rows: map<RowId, Row>, now: DateTime): set<RowId>
    requires now.Valid()
  {
    set id | id in rows && rows[id].status == Pending && TextLe(rows[id].sendAt, Format(now))
  }

  lemma {:induction false} DistinctCount(ids: seq<RowId>, among: set<RowId>)
    requires forall i, j :: 0 <= i < j < |ids| ==> ids[i] != ids[j]
    requires forall i :: 0 <= i < |ids| ==> ids[i] in among
    ensures |ids| <= |among|
    ensures |ids| == |among| ==> forall id :: id in among ==> id in ids
  {
    if ids == [] {
      assert |among| == 0 ==> among == {};
    } else {
      var rest := ids[..|ids| - 1];
      DistinctCount(rest, among - {ids[|ids| - 1]});
      assert forall id :: id in rest ==> id in ids;
    }
  }

  lemma {:induction false} CoveredCount(ids: seq<RowId>, among: set<RowId>)
    requires forall id :: id in among ==> id in ids
    ensures |among| <= |ids|
  {
    if ids == [] {
      assert among == {};
    } else {
      var last := ids[|ids| - 1];
      CoveredCount(ids[..|ids| - 1], among - {last});
    }
  }

  /** A fetch takes 50 due rows or all of them: those it leaves are not earlier. */
  lemma {:induction false} BatchTakesOldest(s: System, batch: seq<RowId>)
    requires s.now.Valid() && DueBatch(s, batch)
    ensures forall id :: id in batch ==> id in DueIds(s.rows, s.now)
    ensures |batch| == if |DueIds(s.rows, s.now)| < 50 then |DueIds(s.rows, s.now)| else 50
    ensures |DueIds(s.rows, s.now)| <= 50 ==> forall id :: id in DueIds(s.rows, s.now) ==> id in batch
    ensures forall id, taken :: id in DueIds(s.rows, s.now) && id !in batch && taken in batch ==>
      TextLe(s.rows[taken].sendAt, s.rows[id].sendAt)
  {
    hide Format, TextLe, DateTime.Valid;
    var due := DueIds(s.rows, s.now);
    assert forall id :: id in due <==> DueRow(s, id);
    DistinctCount(batch, due);
    if id :| id in due && id !in batch {
      assert |batch| == DUE_BATCH_LIMIT;
      DistinctCount(batch, due - {id});
    } else {
      CoveredCount(batch, due);
    }
  }

  /** `process_due` when nobody else steps in: whatever dispatch answers, the tick
      is a run of the system that settles every fetched row by its own answer,
      touches no other row, and leaves no poller behind; with no more than 50 rows
      due it leaves none due. */
  method ProcessDue(db: Schedule, p: PollerId, due: seq<RowId>, outcomes: seq<Outcome>, ghost s: System)
      returns (ghost run: seq<Action>)
    requires Inv(s) && db.rows == s.rows && p !in s.pollers && DueBatch(s, due) && |outcomes| == |due|
    modifies db
    ensures IsRun(s, run) && After(s, run).rows == db.rows && After(s, run).pollers == s.pollers && Inv(After(s, run))
    ensures db.rows.Keys == old(db.rows).Keys
    ensures forall i :: 0 <= i < |due| ==>
      && due[i] in old(db.rows) && db.rows[due[i]] ==
        match outcomes[i]
        case Delivered(mid) => old(db.rows)[due[i]].(status := Sent, messageId := Some(mid), error := None)
        case Rejected(e) => old(db.rows)[due[i]].(status := Failed, error := Some(e))
    ensures forall id :: id in old(db.rows) && id !in due ==> db.rows[id] == old(db.rows)[id]
    ensures s.now.Valid() && (|DueIds(old(db.rows), s.now)| <= 50 ==> DueIds(db.rows, s.now) == {})
  {
    hide Inv, Enabled, Next, DueBatch, Settled, DateTime.Valid, IsRun, After, Move, SettledSoFar, Moved, DueIds, Format;
    assert s.now.Valid() by {
      NowValid(s);
    }
    ghost var at := s;
    NoneSettled(s.rows, due, outcomes);
    FetchEffect(s, p, due);
    run := StartRun(s, FetchDue(p, due));
    at := After(s, run);
    for i := 0 to |due|
      invariant IsRun(s, run) && After(s, run) == at && at.now == s.now && at.rows == db.rows
      invariant at.traces.Keys == s.traces.Keys
      invariant p in at.pollers && at.pollers == s.pollers[p := Poller(due[i..], Racing, s.now)]
      invariant SettledSoFar(s.rows, db.rows, due, outcomes, i)
    {
      OneMoreSettled(s.rows, db.rows, due, outcomes, i);
      ghost var more := SettleEffect(at, p, due[i..], outcomes[i]);
      run := Join(s, run, at, more);
      PollerMoved(s, at, After(at, more), p, due, i);
      at := After(at, more);
      SendOne(db, due[i], outcomes[i]);
    }
    AllSettled(s.rows, db.rows, due, outcomes);
    forall i | 0 <= i < |due| {
      SettledIs(s.rows[due[i]], outcomes[i]);
    }
    NoneDueLeft(s, db.rows, due, outcomes);
    CrashEffect(at, p);
    RunThen(s, run, Crash(p));
    run := run + [Crash(p)];
    assert After(s, run).pollers == s.pollers;
    InvOverRun(s, run);
  }

  /** A row that is still pending was not in the batch, and is as it was. */
  lemma NotDueAnyMore(was: map<RowId, Row>, rows: map<RowId, Row>, due: seq<RowId>, outcomes: seq<Outcome>, id: RowId)
    requires |due| == |outcomes| && SettledSoFar(was, rows, due, outcomes, |due|)
    requires id in rows && rows[id].status == Pending
    ensures id in was && id !in due && rows[id] == was[id]
  {
  }

  lemma NoneDueLeft(s: System, rows: map<RowId, Row>, due: seq<RowId>, outcomes: seq<Outcome>)
    requires s.now.Valid() && DueBatch(s, due)
    requires |due| == |outcomes| && SettledSoFar(s.rows, rows, due, outcomes, |due|)
    ensures |DueIds(s.rows, s.now)| <= 50 ==> DueIds(rows, s.now) == {}
  {
    hide DueBatch, SettledSoFar, Format, TextLe, DateTime.Valid;
    BatchTakesOldest(s, due);
    forall id | id in DueIds(rows, s.now) ensures id in DueIds(s.rows, s.now) && id !in due {
      NotDueAnyMore(s.rows, rows, due, outcomes, id);
    }
  }

  lemma SettledIs(row: Row, outcome: Outcome)
    ensures Settled(row.(status := Sending), outcome) ==
      match outcome
      case Delivered(mid) => row.(status := Sent, messageId := Some(mid), error := None)
      case Rejected(e) => row.(status := Failed, error := Some(e))
  {
  }

  lemma NowValid(s: System)
    requires Inv(s)
    ensures s.now.Valid()
  {
  }

  lemma CrashEffect(s: System, p: PollerId)
    requires p in s.pollers && s.now.Valid()
    ensures Enabled(s, Crash(p)) && Next(s, Crash(p)) == s.(pollers := s.pollers - {p})
  {
  }

  lemma {:induction false} Join(s: System, run: seq<Action>, at: System, more: seq<Action>) returns (all: seq<Action>)
    requires IsRun(s, run) && After(s, run) == at && IsRun(at, more)
    ensures IsRun(s, all) && After(s, all) == After(at, more)
    decreases |run|
  {
    hide Enabled, Next;
    if run == [] {
      all := more;
    } else {
      var rest := Join(Next(s, run[0]), run[1..], at, more);
      all := [run[0]] + rest;
      assert all[1..] == rest;
    }
  }
}
