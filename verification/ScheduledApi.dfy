// The schedule guard of the send handlers and the cancel call, over the table,
// as runs of the system.
module ScheduledApi {
  import opened Wrappers
  import opened Timestamps
  import opened ScheduledSends
  import opened ScheduledStore

  /** Seconds around now within which a send goes out at once. */
  const SCHEDULE_GRACE: int := 2

  /** `should_schedule`: later than now by more than the grace. */
  predicate ShouldSchedule(sendAt: DateTime, now: DateTime) {
    var limit := now.Unix() + SCHEDULE_GRACE;
    sendAt.Unix() > limit || (sendAt.Unix() == limit && sendAt.nanos > now.nanos)
  }

  /** Nanoseconds since 1970-01-01 00:00:00 UTC. */
  function Nanos(t: DateTime): int { 1_000_000_000 * t.Unix() + t.nanos }

  /** The guard parks exactly what is more than two seconds away, to the nanosecond. */
  lemma ScheduledIff(sendAt: DateTime, now: DateTime)
    requires sendAt.Valid() && now.Valid()
    ensures ShouldSchedule(sendAt, now) <==> Nanos(sendAt) - Nanos(now) > 2_000_000_000
  {
    hide DateTime.Unix;
  }

  /** What the guard parks is not due yet when it is parked, iff its year is at most 9999. */
  lemma ParkedIsNotDueIff(sendAt: DateTime, now: DateTime)
    requires sendAt.Valid() && now.Valid() && 0 <= now.year <= 9999 && ShouldSchedule(sendAt, now)
    ensures !TextLe(Format(sendAt), Format(now)) <==> sendAt.year <= 9999
  {
    hide Format, TextLe, DateTime.Unix;
    DueTestExact(sendAt, now);
  }

  lemma OneStep(s: System, a: Action)
    requires Inv(s) && Enabled(s, a)
    ensures IsRun(s, [a]) && After(s, [a]) == Next(s, a) && Inv(After(s, [a]))
  {
    hide Inv, Enabled;
    var run := StartRun(s, a);
    InvOverRun(s, run);
  }

  lemma ParkEffect(s: System, id: RowId, session: string, sendAt: DateTime)
    requires Inv(s) && id !in s.rows && sendAt.Valid()
    ensures Enabled(s, Park(id, session, sendAt))
    ensures Next(s, Park(id, session, sendAt)).rows == s.rows[id := Row(session, Format(sendAt), Pending, None, None)]
  {
    hide DateTime.Valid, RowOk;
  }

  lemma CancelEffect(s: System, session: string, id: RowId)
    requires Inv(s)
    ensures Enabled(s, CancelPending(session, id))
    ensures Next(s, CancelPending(session, id)).rows ==
      if id in s.rows && s.rows[id].session == session && s.rows[id].status == Pending then
        s.rows[id := s.rows[id].(status := Cancelled)]
      else s.rows
  {
    hide DateTime.Valid, RowOk;
  }

  /** `maybe_schedule`: sends at once without a time or within the grace, refuses an
      unknown session, and otherwise parks the message, which is one step of the system. */
  method MaybeSchedule(db: Schedule, id: RowId, session: string, sessionKnown: bool, sendAt: Option<DateTime>,
                       now: DateTime, ghost s: System)
      returns (reply: Reply<Option<RowId>>, ghost run: seq<Action>)
    requires Inv(s) && db.rows == s.rows && id !in s.rows && (sendAt.Some? ==> sendAt.value.Valid())
    modifies db
    ensures now.Valid() ==> (reply == Ok(None) <==> sendAt.None? || Nanos(sendAt.value) - Nanos(now) <= 2_000_000_000)
    ensures db.rows == if sendAt.Some? && reply == Ok(Some(id)) then
        old(db.rows)[id := Row(session, Format(sendAt.value), Pending, None, None)] else old(db.rows)
    ensures IsRun(s, run) && After(s, run).rows == db.rows && Inv(After(s, run))
    ensures reply == Ok(None) <==> sendAt.None? || !ShouldSchedule(sendAt.value, now)
    ensures reply == NotFound <==> sendAt.Some? && ShouldSchedule(sendAt.value, now) && !sessionKnown
    ensures if reply == Ok(Some(id)) then run == [Park(id, session, sendAt.value)]
            else run == [] && (reply == Ok(None) || reply == NotFound)
  {
    hide Inv, Enabled, Next, Format, DateTime.Unix, DateTime.Valid, Nanos;
    run := [];
    if sendAt.None? {
      return Ok(None), [];
    }
    if now.Valid() {
      ScheduledIff(sendAt.value, now);
    }
    if !ShouldSchedule(sendAt.value, now) {
      return Ok(None), [];
    }
    if !sessionKnown {
      return NotFound, [];
    }
    ParkEffect(s, id, session, sendAt.value);
    OneStep(s, Park(id, session, sendAt.value));
    db.Insert(id, session, sendAt.value);
    return Ok(Some(id)), [Park(id, session, sendAt.value)];
  }

  /** `cancel_scheduled`, undisturbed: 404 when the session has no such row, 400 when
      it is not pending, and otherwise the cancelled row, by one step of the system. */
  method CancelScheduled(db: Schedule, session: string, id: RowId, ghost s: System)
      returns (reply: Reply<Row>, ghost run: seq<Action>)
    requires Inv(s) && db.rows == s.rows
    modifies db
    ensures IsRun(s, run) && After(s, run).rows == db.rows && Inv(After(s, run))
    ensures reply == NotFound <==> !(id in s.rows && s.rows[id].session == session)
    ensures reply.Ok? <==> id in s.rows && s.rows[id].session == session && s.rows[id].status == Pending
    ensures reply.Ok? ==> reply.value == s.rows[id].(status := Cancelled) && run == [CancelPending(session, id)]
    ensures !reply.Ok? ==> run == []
    ensures db.rows == if reply.Ok? then old(db.rows)[id := old(db.rows)[id].(status := Cancelled)] else old(db.rows)
  {
    hide Inv, Enabled, Next;
    run := [];
    if id !in db.rows || db.rows[id].session != session {
      return NotFound, [];
    }
    if db.rows[id].status != Pending {
      return BadRequest, [];
    }
    CancelEffect(s, session, id);
    OneStep(s, CancelPending(session, id));
    var cancelled := db.CancelPending(session, id);
    if !cancelled {
      return BadRequest, [];
    }
    return Ok(db.rows[id]), [CancelPending(session, id)];
  }
}
