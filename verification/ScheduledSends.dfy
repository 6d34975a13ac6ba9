// Scheduled sends: any number of pollers fetch due rows and race, row by row,
// on a compare-and-set claim against each other and against cancel calls.
module ScheduledSends {
  import opened Wrappers
  import opened Timestamps

  type RowId = nat
  type PollerId = nat

  /** Rows fetched per tick. */
  const DUE_BATCH_LIMIT: nat := 50

  datatype Status = Pending | Sending | Sent | Failed | Cancelled

  /** `sendAt` is the stored text the due test compares. */
  datatype Row = Row(session: string, sendAt: string, status: Status, error: Option<string>, messageId: Option<string>)

  datatype Outcome = Delivered(messageId: string) | Rejected(error: string)

  /** What a poller is doing with the first row of its queue. */
  datatype Stage = Racing | Won | Answered(outcome: Outcome)

  /** `fetchedAt` is the clock reading of the due SELECT: no later step reads it. */
  datatype Poller = Poller(queue: seq<RowId>, stage: Stage, fetchedAt: DateTime)

  /** One dispatch: the clock reading its row was fetched by, and the reading when it was issued. */
  datatype Dispatched = Dispatched(fetched: DateTime, at: DateTime)

  /** History of one row: no step reads it. */
  datatype Trace = Trace(
    due: DateTime, statuses: seq<Status>, dispatches: seq<Dispatched>, answers: seq<Outcome>, cancelled: bool)

  datatype System = System(
    rows: map<RowId, Row>, pollers: map<PollerId, Poller>, now: DateTime, traces: map<RowId, Trace>)

  datatype Action =
    | Park(id: RowId, session: string, sendAt: DateTime)
    | PassTime(now: DateTime)
    | FetchDue(p: PollerId, batch: seq<RowId>)
    | Claim(p: PollerId)
    | Dispatch(p: PollerId, outcome: Outcome)
    | Settle(p: PollerId)
    | SettleLost(p: PollerId)        // the settling statement failed: logged, the loop goes on
    | Crash(p: PollerId)             // the tick ends: a database error, or the process dies
    | CancelPending(session: string, id: RowId)

  predicate DueRow(s: System, id: RowId)
    requires s.now.Valid()
  {
    id in s.rows && s.rows[id].status == Pending && TextLe(s.rows[id].sendAt, Format(s.now))
  }

  /** SELECT ... WHERE status = 'pending' AND send_at <= now ORDER BY send_at LIMIT 50. */
  ghost predicate DueBatch(s: System, batch: seq<RowId>)
    requires s.now.Valid()
  {
    && |batch| <= DUE_BATCH_LIMIT
    && (forall i :: 0 <= i < |batch| ==> DueRow(s, batch[i]))
    && (forall i, j :: 0 <= i < j < |batch| ==>
         batch[i] != batch[j] && TextLe(s.rows[batch[i]].sendAt, s.rows[batch[j]].sendAt))
    && forall id :: DueRow(s, id) && id !in batch ==>
         && |batch| == DUE_BATCH_LIMIT
         && forall i :: 0 <= i < |batch| ==> TextLe(s.rows[batch[i]].sendAt, s.rows[id].sendAt)
  }

  predicate HasHead(s: System, p: PollerId) {
    p in s.pollers && s.pollers[p].queue != []
  }

  ghost predicate Enabled(s: System, a: Action) {
    && s.now.Valid()
    && match a
       case Park(id, _, sendAt) => id !in s.rows && sendAt.Valid()
       case PassTime(now) => now.Valid() && 0 <= now.year <= 9999
       case FetchDue(p, batch) => p !in s.pollers && DueBatch(s, batch)
       case Claim(p) => HasHead(s, p) && s.pollers[p].stage.Racing? && s.pollers[p].queue[0] in s.rows
       case Dispatch(p, _) => HasHead(s, p) && s.pollers[p].stage.Won? && s.pollers[p].queue[0] in s.traces
       case Settle(p) =>
         && HasHead(s, p) && s.pollers[p].stage.Answered?
         && s.pollers[p].queue[0] in s.rows && s.pollers[p].queue[0] in s.traces
       case SettleLost(p) => HasHead(s, p) && s.pollers[p].stage.Answered?
       case Crash(p) => p in s.pollers
       case CancelPending(_, id) => id in s.rows ==> id in s.traces
  }

  /** A status write, and its mark in the history. */
  function Write(s: System, id: RowId, row: Row): System
    requires id in s.traces
  {
    var t := s.traces[id];
    s.(rows := s.rows[id := row], traces := s.traces[id := t.(statuses := t.statuses + [row.status])])
  }

  /** `mark_sent` and `mark_failed`: no status guard, the claim is the guard. */
  function Settled(row: Row, outcome: Outcome): Row {
    match outcome
    case Delivered(mid) => row.(status := Sent, messageId := Some(mid), error := None)
    case Rejected(e) => row.(status := Failed, error := Some(e))
  }

  function Move(s: System, p: PollerId, queue: seq<RowId>, stage: Stage): System
    requires p in s.pollers
  {
    s.(pollers := s.pollers[p := s.pollers[p].(queue := queue, stage := stage)])
  }

  ghost function Next(s: System, a: Action): System
    requires Enabled(s, a)
  {
    match a
    case Park(id, session, sendAt) =>
      s.(rows := s.rows[id := Row(session, Format(sendAt), Pending, None, None)],
         traces := s.traces[id := Trace(sendAt, [Pending], [], [], false)])
    case PassTime(now) => s.(now := now)
    case FetchDue(p, batch) => s.(pollers := s.pollers[p := Poller(batch, Racing, s.now)])
    case Claim(p) =>
      var queue := s.pollers[p].queue;
      var id := queue[0];
      if s.rows[id].status == Pending && id in s.traces then
        Move(Write(s, id, s.rows[id].(status := Sending)), p, queue, Won)
      else Move(s, p, queue[1..], Racing)
    case Dispatch(p, outcome) =>
      var queue := s.pollers[p].queue;
      var t := s.traces[queue[0]];
      var d := Dispatched(s.pollers[p].fetchedAt, s.now);
      var t' := t.(dispatches := t.dispatches + [d], answers := t.answers + [outcome]);
      Move(s.(traces := s.traces[queue[0] := t']), p, queue, Answered(outcome))
    case Settle(p) =>
      var queue := s.pollers[p].queue;
      Move(Write(s, queue[0], Settled(s.rows[queue[0]], s.pollers[p].stage.outcome)), p, queue[1..], Racing)
    case SettleLost(p) => Move(s, p, s.pollers[p].queue[1..], Racing)
    case Crash(p) => s.(pollers := s.pollers - {p})
    case CancelPending(session, id) =>
      if id in s.rows && s.rows[id].session == session && s.rows[id].status == Pending then
        var s' := Write(s, id, s.rows[id].(status := Cancelled));
        s'.(traces := s'.traces[id := s'.traces[id].(cancelled := true)])
      else s
  }

  function Start(now: DateTime): System { System(map[], map[], now, map[]) }

  ghost predicate IsRun(s: System, acts: seq<Action>)
    decreases |acts|
  {
    acts == [] || (Enabled(s, acts[0]) && IsRun(Next(s, acts[0]), acts[1..]))
  }

  ghost function After(s: System, acts: seq<Action>): System
    requires IsRun(s, acts)
    decreases |acts|
  {
    if acts == [] then s else After(Next(s, acts[0]), acts[1..])
  }

  lemma {:induction false} RunThen(s: System, run: seq<Action>, a: Action)
    requires IsRun(s, run) && Enabled(After(s, run), a)
    ensures IsRun(s, run + [a]) && After(s, run + [a]) == Next(After(s, run), a)
    decreases |run|
  {
    hide Enabled, Next;
    if run == [] {
      assert (run + [a])[1..] == [];
    } else {
      assert (run + [a])[1..] == run[1..] + [a];
      RunThen(Next(s, run[0]), run[1..], a);
    }
  }

  lemma StartRun(s: System, a: Action) returns (run: seq<Action>)
    requires Enabled(s, a)
    ensures run == [a] && IsRun(s, run) && After(s, run) == Next(s, a)
  {
    RunThen(s, [], a);
    run := [] + [a];
  }

  // -------------------------------------------------------------- invariant

  /** The poller has won the claim on `id` and has not let go of it. */
  predicate Holds(s: System, p: PollerId, id: RowId) {
    HasHead(s, p) && s.pollers[p].queue[0] == id && !s.pollers[p].stage.Racing?
  }

  /** pending; pending, cancelled; pending, sending; pending, sending, sent or failed. */
  predicate LifePath(h: seq<Status>) {
    h == [Pending] || h == [Pending, Cancelled] || h == [Pending, Sending]
    || h == [Pending, Sending, Sent] || h == [Pending, Sending, Failed]
  }

  /** The requested time has come, for requested years the text can order. */
  predicate TimeCame(due: DateTime, now: DateTime) {
    due.year <= 9999 ==> due.Unix() <= now.Unix()
  }

  predicate RowOk(row: Row, t: Trace) {
    && t.due.Valid() && row.sendAt == Format(t.due)
    && LifePath(t.statuses) && t.statuses[|t.statuses| - 1] == row.status
    && |t.dispatches| <= 1 && |t.answers| == |t.dispatches|
    && (t.dispatches != [] ==> row.status == Sending || row.status == Sent || row.status == Failed)
    && (row.status == Sent || row.status == Failed ==> |t.dispatches| == 1)
    && (row.status == Sent ==>
         t.answers[0].Delivered? && row.messageId == Some(t.answers[0].messageId) && row.error == None)
    && (row.status == Failed ==> t.answers[0].Rejected? && row.error == Some(t.answers[0].error))
    && (t.cancelled <==> row.status == Cancelled)
    && (forall k :: 0 <= k < |t.dispatches| ==> TimeCame(t.due, t.dispatches[k].fetched))
  }

  ghost predicate PollerInv(s: System, p: PollerId)
    requires p in s.pollers
  {
    var q := s.pollers[p].queue;
    && (forall i :: 0 <= i < |q| ==>
         q[i] in s.rows && q[i] in s.traces && TimeCame(s.traces[q[i]].due, s.pollers[p].fetchedAt))
    && (forall i, j :: 0 <= i < j < |q| ==> q[i] != q[j])
    && (!s.pollers[p].stage.Racing? ==>
          && q != [] && s.rows[q[0]].status == Sending
          && |s.traces[q[0]].dispatches| == (if s.pollers[p].stage.Won? then 0 else 1)
          && (s.pollers[p].stage.Answered? ==> s.traces[q[0]].answers == [s.pollers[p].stage.outcome]))
  }

  ghost predicate Inv(s: System) {
    && s.now.Valid() && 0 <= s.now.year <= 9999
    && s.rows.Keys == s.traces.Keys
    && (forall id :: id in s.rows ==> RowOk(s.rows[id], s.traces[id]))
    && (forall p :: p in s.pollers ==> PollerInv(s, p))
    && (forall p, q, id :: Holds(s, p, id) && Holds(s, q, id) ==> p == q)
  }

  lemma {:induction false} FetchKeepsInv(s: System, a: Action)
    requires Inv(s) && Enabled(s, a) && a.FetchDue?
    ensures Inv(Next(s, a))
  {
    hide Format, DateTime.Unix, DateTime.Valid, TextLe, LifePath;
    var s' := Next(s, a);
    forall i | 0 <= i < |a.batch| ensures TimeCame(s.traces[a.batch[i]].due, s.now) {
      assert DueRow(s, a.batch[i]) && RowOk(s.rows[a.batch[i]], s.traces[a.batch[i]]);
      if s.traces[a.batch[i]].due.year <= 9999 {
        DueTestExact(s.traces[a.batch[i]].due, s.now);
      }
    }
    assert PollerInv(s', a.p);
    assert forall p :: p in s.pollers ==> PollerInv(s, p) && PollerInv(s', p);
    assert forall p, id :: Holds(s', p, id) ==> Holds(s, p, id);
  }

  /** The clock moves or a poller goes away: no row changes. */
  lemma {:induction false} QuietKeepsInv(s: System, a: Action)
    requires Inv(s) && Enabled(s, a) && (a.PassTime? || a.Crash?)
    ensures Inv(Next(s, a))
  {
    hide Format, DateTime.Unix, DateTime.Valid, TextLe, LifePath, RowOk, TimeCame, DueBatch;
    var s' := Next(s, a);
    forall p | p in s'.pollers ensures PollerInv(s', p) {
      assert PollerInv(s, p);
    }
    assert forall p, id :: Holds(s', p, id) ==> Holds(s, p, id);
  }

  /** A row is parked: no known row changes. */
  lemma {:induction false} ParkKeepsInv(s: System, a: Action)
    requires Inv(s) && Enabled(s, a) && a.Park?
    ensures Inv(Next(s, a))
  {
    hide Format, DateTime.Unix, DateTime.Valid, TextLe, LifePath, RowOk, TimeCame, DueBatch;
    var s' := Next(s, a);
    ParkedRow(a.session, a.sendAt);
    forall p | p in s'.pollers ensures PollerInv(s', p) {
      assert PollerInv(s, p);
    }
    assert forall p, id :: Holds(s', p, id) ==> Holds(s, p, id);
  }

  lemma ParkedRow(session: string, sendAt: DateTime)
    requires sendAt.Valid()
    ensures RowOk(Row(session, Format(sendAt), Pending, None, None), Trace(sendAt, [Pending], [], [], false))
  {
  }

  /** No poller but `writer` holds row `id`. */
  ghost predicate FreeOf(s: System, id: RowId, writer: Option<PollerId>) {
    forall q :: q in s.pollers && writer != Some(q) ==>
      s.pollers[q].stage.Racing? || s.pollers[q].queue == [] || s.pollers[q].queue[0] != id
  }

  /** One row is written, by one poller or by nobody; no other poller holds it. */
  lemma {:induction false} RowWritten(s: System, s': System, id: RowId, writer: Option<PollerId>)
    requires Inv(s) && id in s.rows && FreeOf(s, id, writer)
    requires s'.now == s.now && s'.rows.Keys == s.rows.Keys && s'.traces.Keys == s.rows.Keys
    requires forall o :: o in s.rows && o != id ==> s'.rows[o] == s.rows[o] && s'.traces[o] == s.traces[o]
    requires RowOk(s'.rows[id], s'.traces[id]) && s'.traces[id].due == s.traces[id].due
    requires s'.pollers.Keys == s.pollers.Keys
    requires forall q :: q in s.pollers && writer != Some(q) ==> s'.pollers[q] == s.pollers[q]
    requires writer.Some? ==> writer.value in s.pollers && PollerInv(s', writer.value)
    requires writer.Some? ==> forall o :: Holds(s', writer.value, o) ==> o == id
    ensures Inv(s')
  {
    hide RowOk, TimeCame, Holds, PollerInv, FreeOf;
    forall q | q in s'.pollers ensures PollerInv(s', q) {
      if writer != Some(q) {
        OtherPollerKept(s, s', id, writer, q);
      }
    }
    HoldersAfterWrite(s, s', id, writer);
  }

  /** A poller that does not hold the written row is as it was. */
  lemma OtherPollerKept(s: System, s': System, id: RowId, writer: Option<PollerId>, q: PollerId)
    requires q in s.pollers && PollerInv(s, q) && FreeOf(s, id, writer) && writer != Some(q)
    requires q in s'.pollers && s'.pollers[q] == s.pollers[q] && s'.rows.Keys == s.rows.Keys
    requires s.traces.Keys == s.rows.Keys && s'.traces.Keys == s.rows.Keys && id in s.rows
    requires forall o :: o in s.rows && o != id ==> s'.rows[o] == s.rows[o] && s'.traces[o] == s.traces[o]
    requires s'.traces[id].due == s.traces[id].due
    ensures PollerInv(s', q)
  {
    hide TimeCame;
  }

  /** The other pollers hold what they held, which is not the written row. */
  lemma HoldersAfterWrite(s: System, s': System, id: RowId, writer: Option<PollerId>)
    requires FreeOf(s, id, writer) && s'.pollers.Keys == s.pollers.Keys
    requires forall q :: q in s.pollers && writer != Some(q) ==> s'.pollers[q] == s.pollers[q]
    ensures forall q: PollerId, o: RowId :: Holds(s', q, o) && writer != Some(q) ==> Holds(s, q, o) && o != id
  {
  }

  /** A pending row is held by nobody. */
  lemma {:induction false} PendingIsFree(s: System, id: RowId)
    requires Inv(s) && id in s.rows && s.rows[id].status == Pending
    ensures FreeOf(s, id, None)
    ensures s.traces[id].statuses == [Pending] && s.traces[id].dispatches == [] && !s.traces[id].cancelled
  {
    hide Format, DateTime.Valid, TimeCame;
    assert RowOk(s.rows[id], s.traces[id]);
    forall q | q in s.pollers
      ensures s.pollers[q].stage.Racing? || s.pollers[q].queue == [] || s.pollers[q].queue[0] != id
    {
      assert PollerInv(s, q);
    }
  }

  lemma {:induction false} CancelKeepsInv(s: System, a: Action)
    requires Inv(s) && Enabled(s, a) && a.CancelPending?
    ensures Inv(Next(s, a))
  {
    hide Format, DateTime.Unix, DateTime.Valid, TextLe, TimeCame, TextLess, LifePath, RowOk;
    if a.id in s.rows && s.rows[a.id].session == a.session && s.rows[a.id].status == Pending {
      PendingIsFree(s, a.id);
      CancelledRow(s.rows[a.id], s.traces[a.id]);
      RowWritten(s, Next(s, a), a.id, None);
    }
  }

  lemma CancelledRow(row: Row, t: Trace)
    requires RowOk(row, t) && row.status == Pending && t.statuses == [Pending] && t.dispatches == []
    ensures RowOk(row.(status := Cancelled), t.(statuses := t.statuses + [Cancelled], cancelled := true))
  {
  }

  lemma {:induction false} ClaimKeepsInv(s: System, a: Action)
    requires Inv(s) && Enabled(s, a) && a.Claim?
    ensures Inv(Next(s, a))
  {
    hide Format, DateTime.Unix, DateTime.Valid, TextLe, TimeCame, TextLess;
    var s', id := Next(s, a), s.pollers[a.p].queue[0];
    assert PollerInv(s, a.p);
    if s.rows[id].status == Pending {
      WonClaimKeepsInv(s, a);
    } else {
      assert PollerInv(s', a.p);
      Released(s, s', a.p);
    }
  }

  lemma ClaimedRow(row: Row, t: Trace)
    requires RowOk(row, t) && row.status == Pending && t.statuses == [Pending] && t.dispatches == []
    ensures RowOk(row.(status := Sending), t.(statuses := t.statuses + [Sending]))
  {
  }

  lemma {:induction false} WonClaimKeepsInv(s: System, a: Action)
    requires Inv(s) && Enabled(s, a) && a.Claim? && s.rows[s.pollers[a.p].queue[0]].status == Pending
    ensures Inv(Next(s, a))
  {
    hide Format, DateTime.Unix, DateTime.Valid, TextLe, TimeCame, TextLess, LifePath, RowOk;
    var s', id := Next(s, a), s.pollers[a.p].queue[0];
    assert PollerInv(s, a.p);
    PendingIsFree(s, id);
    ClaimedRow(s.rows[id], s.traces[id]);
    assert PollerInv(s', a.p);
    assert FreeOf(s, id, Some(a.p));
    RowWritten(s, s', id, Some(a.p));
  }

  /** A poller moves on to the next row of its queue. */
  lemma {:induction false} Released(s: System, s': System, p: PollerId)
    requires Inv(s) && p in s.pollers && p in s'.pollers && PollerInv(s', p) && s'.pollers[p].stage.Racing?
    requires s' == s.(pollers := s.pollers[p := s'.pollers[p]])
    ensures Inv(s')
  {
    hide RowOk, TimeCame;
    assert forall q :: q in s.pollers ==> PollerInv(s, q);
    assert forall q :: q in s.pollers && q != p ==> PollerInv(s', q);
    assert forall q, o :: Holds(s', q, o) ==> Holds(s, q, o);
  }

  lemma {:induction false} SoleHolder(s: System, p: PollerId, id: RowId)
    requires Inv(s) && Holds(s, p, id)
    ensures FreeOf(s, id, Some(p)) && id in s.rows && id in s.traces && RowOk(s.rows[id], s.traces[id])
    ensures s.traces[id].statuses == [Pending, Sending]
  {
    hide Format, DateTime.Valid, TimeCame;
    assert PollerInv(s, p);
    forall q | q in s.pollers && q != p
      ensures s.pollers[q].stage.Racing? || s.pollers[q].queue == [] || s.pollers[q].queue[0] != id
    {
      assert !Holds(s, q, id);
    }
  }

  lemma DispatchedRow(row: Row, t: Trace, d: Dispatched, outcome: Outcome)
    requires RowOk(row, t) && row.status == Sending && t.dispatches == [] && TimeCame(t.due, d.fetched)
    ensures RowOk(row, t.(dispatches := t.dispatches + [d], answers := t.answers + [outcome]))
  {
    hide TimeCame, Format, DateTime.Valid, LifePath;
  }

  lemma {:induction false} DispatchKeepsInv(s: System, a: Action)
    requires Inv(s) && Enabled(s, a) && a.Dispatch?
    ensures Inv(Next(s, a))
  {
    hide Format, DateTime.Unix, DateTime.Valid, TextLe, TimeCame, LifePath, RowOk, DueBatch, Settled;
    var id := s.pollers[a.p].queue[0];
    SoleHolder(s, a.p, id);
    assert PollerInv(s, a.p);
    DispatchedRow(s.rows[id], s.traces[id], Dispatched(s.pollers[a.p].fetchedAt, s.now), a.outcome);
    NoAnswersYet(s.rows[id], s.traces[id]);
    assert PollerInv(Next(s, a), a.p);
    RowWritten(s, Next(s, a), id, Some(a.p));
  }

  lemma NoAnswersYet(row: Row, t: Trace)
    requires RowOk(row, t) && t.dispatches == []
    ensures t.answers == []
  {
  }

  lemma SettledRow(row: Row, t: Trace, outcome: Outcome)
    requires RowOk(row, t) && t.statuses == [Pending, Sending] && |t.dispatches| == 1 && t.answers == [outcome]
    ensures RowOk(Settled(row, outcome), t.(statuses := t.statuses + [Settled(row, outcome).status]))
  {
  }

  lemma {:induction false} SettleKeepsInv(s: System, a: Action)
    requires Inv(s) && Enabled(s, a) && (a.Settle? || a.SettleLost?)
    ensures Inv(Next(s, a))
  {
    hide Format, DateTime.Unix, DateTime.Valid, TextLe, TimeCame, LifePath, RowOk;
    var s', id := Next(s, a), s.pollers[a.p].queue[0];
    assert PollerInv(s, a.p);
    if a.Settle? {
      SoleHolder(s, a.p, id);
      SettledRow(s.rows[id], s.traces[id], s.pollers[a.p].stage.outcome);
      assert PollerInv(s', a.p);
      RowWritten(s, s', id, Some(a.p));
    } else {
      assert PollerInv(s', a.p);
      Released(s, s', a.p);
    }
  }

  lemma {:induction false} StepKeepsInv(s: System, a: Action)
    requires Inv(s) && Enabled(s, a)
    ensures Inv(Next(s, a))
  {
    hide Inv, Enabled, Next;
    if a.Claim? {
      ClaimKeepsInv(s, a);
    } else if a.CancelPending? {
      CancelKeepsInv(s, a);
    } else if a.Dispatch? {
      DispatchKeepsInv(s, a);
    } else if a.Settle? || a.SettleLost? {
      SettleKeepsInv(s, a);
    } else if a.FetchDue? {
      FetchKeepsInv(s, a);
    } else if a.Park? {
      ParkKeepsInv(s, a);
    } else {
      QuietKeepsInv(s, a);
    }
  }

  lemma {:induction false} InvOverRun(s: System, acts: seq<Action>)
    requires Inv(s) && IsRun(s, acts)
    ensures Inv(After(s, acts))
    decreases |acts|
  {
    hide Inv, Enabled, Next;
    if acts != [] {
      StepKeepsInv(s, acts[0]);
      InvOverRun(Next(s, acts[0]), acts[1..]);
    }
  }

  // ---------------------------------------------------- a clock that goes back

  /** The clock readings of a run, in order. */
  function Readings(acts: seq<Action>): seq<DateTime> {
    if acts == [] then [] else (if acts[0].PassTime? then [acts[0].now] else []) + Readings(acts[1..])
  }

  /** Some reading before `due` directly follows one at or past it. */
  predicate StepsBack(due: DateTime, now: DateTime, readings: seq<DateTime>)
    decreases |readings|
  {
    readings != []
    && (readings[0].Unix() < due.Unix() <= now.Unix() || StepsBack(due, readings[0], readings[1..]))
  }

  /** A clock that never goes back steps back over no time. */
  lemma {:induction false} SteadyNeverStepsBack(due: DateTime, now: DateTime, readings: seq<DateTime>)
    requires readings != [] ==> now.Unix() <= readings[0].Unix()
    requires forall i :: 0 < i < |readings| ==> readings[i - 1].Unix() <= readings[i].Unix()
    ensures !StepsBack(due, now, readings)
    decreases |readings|
  {
    hide DateTime.Unix;
    if readings != [] {
      SteadyNeverStepsBack(due, readings[0], readings[1..]);
    }
  }

  /** Row `id` fetched at or past `due`: the clock is still past it, or was at the dispatch. */
  ghost predicate PastInv(s: System, id: RowId, due: DateTime) {
    && (forall p :: p in s.pollers && id in s.pollers[p].queue ==>
         due.Unix() <= s.pollers[p].fetchedAt.Unix() ==> due.Unix() <= s.now.Unix())
    && (id in s.traces ==> StillPast(s.traces[id].dispatches, due))
  }

  predicate StillPast(ds: seq<Dispatched>, due: DateTime) {
    forall k :: 0 <= k < |ds| ==> due.Unix() <= ds[k].fetched.Unix() ==> due.Unix() <= ds[k].at.Unix()
  }

  lemma StepKeepsPast(s: System, a: Action, id: RowId, due: DateTime)
    requires PastInv(s, id, due) && Enabled(s, a)
    requires a.PassTime? ==> !(a.now.Unix() < due.Unix() <= s.now.Unix())
    ensures PastInv(Next(s, a), id, due)
  {
    hide Format, DateTime.Unix, DateTime.Valid, TextLe, DueBatch, Settled;
  }

  /** While the clock does not step back over `due`, a row fetched at or past it
      is dispatched at or past it. */
  lemma {:induction false} PastOverRun(s: System, acts: seq<Action>, id: RowId, due: DateTime)
    requires PastInv(s, id, due) && IsRun(s, acts) && !StepsBack(due, s.now, Readings(acts))
    ensures PastInv(After(s, acts), id, due)
    decreases |acts|
  {
    hide PastInv, Enabled, DateTime.Unix;
    if acts != [] {
      var a := acts[0];
      if a.PassTime? {
        assert Readings(acts)[0] == a.now && Readings(acts)[1..] == Readings(acts[1..]);
      } else {
        assert Readings(acts) == Readings(acts[1..]);
      }
      StepKeepsPast(s, a, id, due);
      ClockAfter(s, a);
      PastOverRun(Next(s, a), acts[1..], id, due);
    }
  }

  /** Only the passing of time moves the clock. */
  lemma ClockAfter(s: System, a: Action)
    requires Enabled(s, a)
    ensures Next(s, a).now == if a.PassTime? then a.now else s.now
  {
    hide Format, DateTime.Unix, DateTime.Valid, TextLe, DueBatch, Settled;
  }

  // ------------------------------------------------------------------ results

  /** However pollers, cancels, crashes and the clock interleave: a row is
      dispatched at most once, never when a cancel succeeded, and never by a fetch
      whose clock read before its requested time truncated to the second (for
      requested years the text can order); while the clock did not step back over
      that time, it is not dispatched before it either. Its statuses follow the
      documented life cycle, and a settled row records the answer to its one
      dispatch. */
  lemma {:induction false} AtMostOnce(now: DateTime, acts: seq<Action>, id: RowId)
    requires now.Valid() && 0 <= now.year <= 9999 && IsRun(Start(now), acts)
    requires id in After(Start(now), acts).traces
    ensures id in After(Start(now), acts).rows
    ensures var end := After(Start(now), acts);
      var t, row := end.traces[id], end.rows[id];
      && |t.dispatches| <= 1
      && (t.cancelled ==> t.dispatches == [])
      && (t.due.year <= 9999 ==> forall k :: 0 <= k < |t.dispatches| ==>
           && t.due.Truncated().Unix() <= t.dispatches[k].fetched.Unix()
           && (!StepsBack(t.due, now, Readings(acts)) ==>
                t.due.Truncated().Unix() <= t.dispatches[k].at.Unix()))
      && LifePath(t.statuses)
      && (forall m :: t.answers == [Delivered(m)] && row.status != Sending ==>
           row.status == Sent && row.messageId == Some(m))
      && (forall e :: t.answers == [Rejected(e)] && row.status != Sending ==>
           row.status == Failed && row.error == Some(e))
  {
    hide Enabled, Next, IsRun, After, Format, DateTime.Unix, DateTime.Valid, LifePath, PollerInv, TextLe;
    InvOverRun(Start(now), acts);
    var end := After(Start(now), acts);
    var due := end.traces[id].due;
    TruncationKeepsSeconds(due);
    if !StepsBack(due, now, Readings(acts)) {
      PastOverRun(Start(now), acts, id, due);
      assert StillPast(end.traces[id].dispatches, due);
    }
    assert RowOk(end.rows[id], end.traces[id]);
  }

  /** A row that left `pending` is never dispatched by a later claim: once its
      holder is gone it keeps its status for good. */
  lemma {:induction false} AbandonedStays(s: System, acts: seq<Action>, id: RowId)
    requires Inv(s) && IsRun(s, acts) && id in s.rows && id in s.traces && s.rows[id].status != Pending
    requires forall p :: !Holds(s, p, id)
    ensures var end := After(s, acts);
      id in end.rows && id in end.traces && end.rows[id] == s.rows[id] && end.traces[id] == s.traces[id]
    decreases |acts|
  {
    hide Inv, Enabled, Next, Holds;
    if acts != [] {
      var a := acts[0];
      StepKeepsInv(s, a);
      UnheldKept(s, a, id);
      AbandonedStays(Next(s, a), acts[1..], id);
    }
  }

  lemma {:induction false} UnheldKept(s: System, a: Action, id: RowId)
    requires Inv(s) && Enabled(s, a) && id in s.rows && s.rows[id].status != Pending
    requires forall p :: !Holds(s, p, id)
    ensures var s' := Next(s, a);
      && id in s'.rows && id in s'.traces && s'.rows[id] == s.rows[id] && s'.traces[id] == s.traces[id]
      && forall p :: !Holds(s', p, id)
  {
    hide Format, DateTime.Unix, DateTime.Valid, TextLe, TimeCame, LifePath, RowOk, PollerInv, DueBatch, Settled;
    if a.Dispatch? || a.Settle? {
      assert Holds(s, a.p, s.pollers[a.p].queue[0]);
    }
    assert forall p :: Holds(Next(s, a), p, id) ==> Holds(s, p, id);
  }
}
