// Where a scheduled send goes out before its time: the runs, and when exactly.
module ScheduledGaps {
  import opened Timestamps
  import opened ScheduledApi
  import opened ScheduledSends

  predicate Reading(now: DateTime) {
    now.Valid() && 0 <= now.year <= 9999
  }

  predicate AllReadings(readings: seq<DateTime>) {
    forall i :: 0 <= i < |readings| ==> Reading(readings[i])
  }

  /** What the clock reads at the end. */
  function LastReading(now: DateTime, readings: seq<DateTime>): DateTime {
    if readings == [] then now else readings[|readings| - 1]
  }

  lemma LastIsReading(now: DateTime, readings: seq<DateTime>)
    requires Reading(now) && AllReadings(readings)
    ensures Reading(LastReading(now, readings))
  {
    hide DateTime.Valid;
  }

  /** The run leads from an empty table to `s` with exactly these readings. */
  ghost predicate Reaches(now: DateTime, acts: seq<Action>, readings: seq<DateTime>, s: System) {
    IsRun(Start(now), acts) && After(Start(now), acts) == s && Readings(acts) == readings
    && s.now == LastReading(now, readings)
  }

  /** The schedule guard let this message through at this or an earlier reading. */
  predicate LetThrough(due: DateTime, now: DateTime, readings: seq<DateTime>) {
    exists i :: 0 <= i <= |readings| && ShouldSchedule(due, LastReading(now, readings[..i]))
  }

  /** Every message parked in the run passed the schedule guard. */
  ghost predicate Guarded(now: DateTime, acts: seq<Action>) {
    forall k :: 0 <= k < |acts| && acts[k].Park? ==> LetThrough(acts[k].sendAt, now, Readings(acts[..k]))
  }

  lemma {:induction false} ReadingsSplit(first: seq<Action>, more: seq<Action>)
    ensures Readings(first + more) == Readings(first) + Readings(more)
  {
    if first == [] {
      assert first + more == more;
    } else {
      assert (first + more)[1..] == first[1..] + more;
      ReadingsSplit(first[1..], more);
    }
  }

  function ReadBy(a: Action): seq<DateTime> {
    if a.PassTime? then [a.now] else []
  }

  lemma LetThroughNow(due: DateTime, now: DateTime, readings: seq<DateTime>)
    requires ShouldSchedule(due, LastReading(now, readings))
    ensures LetThrough(due, now, readings)
  {
    hide ShouldSchedule;
    assert readings[..|readings|] == readings;
  }

  lemma {:induction false} GuardedThen(now: DateTime, acts: seq<Action>, readings: seq<DateTime>, reading: DateTime,
                                       a: Action)
    requires Readings(acts) == readings && reading == LastReading(now, readings)
    requires Guarded(now, acts) && (a.Park? ==> ShouldSchedule(a.sendAt, reading))
    ensures Guarded(now, acts + [a])
  {
    hide Readings, ShouldSchedule, LetThrough;
    forall k | 0 <= k < |acts + [a]| && (acts + [a])[k].Park?
      ensures LetThrough((acts + [a])[k].sendAt, now, Readings((acts + [a])[..k]))
    {
      assert (acts + [a])[..k] == acts[..k];
      if k == |acts| {
        assert acts[..k] == acts;
        LetThroughNow(a.sendAt, now, readings);
      }
    }
  }

  lemma {:induction false} Then(now: DateTime, acts: seq<Action>, readings: seq<DateTime>, s: System,
                                a: Action) returns (acts': seq<Action>, s': System)
    requires Reaches(now, acts, readings, s) && Enabled(s, a)
    ensures s' == Next(s, a) && Reaches(now, acts', readings + ReadBy(a), s')
    ensures Guarded(now, acts) && (a.Park? ==> ShouldSchedule(a.sendAt, s.now)) ==> Guarded(now, acts')
  {
    hide Enabled, Next, IsRun, After, ShouldSchedule;
    RunThen(Start(now), acts, a);
    assert Readings([a]) == ReadBy(a) by {
      assert [a][1..] == [];
    }
    ReadingsSplit(acts, [a]);
    ClockAfter(s, a);
    acts', s' := acts + [a], Next(s, a);
    if Guarded(now, acts) && (a.Park? ==> ShouldSchedule(a.sendAt, s.now)) {
      GuardedThen(now, acts, readings, s.now, a);
    }
  }

  /** The clock passes through more readings, and nothing else happens. */
  lemma {:induction false} PassAll(now: DateTime, acts: seq<Action>, readings: seq<DateTime>, s: System,
                                   more: seq<DateTime>) returns (acts': seq<Action>, s': System)
    requires Reaches(now, acts, readings, s) && Reading(s.now) && AllReadings(more)
    ensures s' == s.(now := LastReading(s.now, more)) && Reading(s'.now) && Reaches(now, acts', readings + more, s')
    ensures Guarded(now, acts) ==> Guarded(now, acts')
    decreases |more|
  {
    hide Reaches, DateTime.Valid, Guarded;
    if more == [] {
      assert readings + more == readings;
      acts', s' := acts, s;
    } else {
      acts', s' := Then(now, acts, readings, s, PassTime(more[0]));
      acts', s' := PassAll(now, acts', readings + [more[0]], s', more[1..]);
      assert readings + [more[0]] + more[1..] == readings + more;
    }
  }

  /** The due SELECT of a table with one due row. */
  lemma OnlyRowIsBatch(s: System)
    requires s.now.Valid() && s.rows.Keys == {0} && DueRow(s, 0)
    ensures DueBatch(s, [0])
  {
  }

  /** A due row, alone in its table, is fetched and claimed. */
  lemma {:induction false} FetchesAndClaims(now: DateTime, acts: seq<Action>, readings: seq<DateTime>,
                                            s: System) returns (acts': seq<Action>, s': System)
    requires Reaches(now, acts, readings, s) && Reading(s.now) && s.pollers == map[]
    requires s.rows.Keys == {0} && DueRow(s, 0) && 0 in s.traces
    ensures Reaches(now, acts', readings, s') && s'.now == s.now && (Guarded(now, acts) ==> Guarded(now, acts'))
    ensures s'.pollers == map[0 := Poller([0], Won, s.now)] && 0 in s'.rows && 0 in s'.traces
    ensures s'.traces[0].due == s.traces[0].due && s'.traces[0].dispatches == s.traces[0].dispatches
  {
    hide Reaches, Guarded, Format, DateTime.Unix, DateTime.Valid, TextLe, DueBatch;
    OnlyRowIsBatch(s);
    acts', s' := Then(now, acts, readings, s, FetchDue(0, [0]));
    acts', s' := Then(now, acts', readings + [], s', Claim(0));
    assert readings + [] + [] == readings;
  }

  lemma EmptyRun(now: DateTime)
    ensures Reaches(now, [], [], Start(now)) && Guarded(now, [])
  {
  }

  /** One row is parked after `early`, and fetched and claimed after `before` on top. */
  lemma {:induction false} ClaimsParked(now: DateTime, due: DateTime, early: seq<DateTime>,
                                        before: seq<DateTime>) returns (acts: seq<Action>, s: System)
    requires Reading(now) && AllReadings(early) && AllReadings(before)
    requires due.Valid() && TextLe(Format(due), Format(LastReading(now, early + before)))
    ensures Reaches(now, acts, early + before, s) && Reading(s.now)
    ensures ShouldSchedule(due, LastReading(now, early)) ==> Guarded(now, acts)
    ensures s.pollers == map[0 := Poller([0], Won, s.now)] && 0 in s.rows && 0 in s.traces
    ensures s.traces[0].due == due && s.traces[0].dispatches == []
  {
    hide IsRun, After, Readings, Format, DateTime.Unix, DateTime.Valid, TextLe, DueBatch, Guarded, ShouldSchedule;
    EmptyRun(now);
    acts, s := PassAll(now, [], [], Start(now), early);
    assert [] + early == early;
    acts, s := Then(now, acts, early, s, Park(0, "", due));
    assert early + [] == early;
    acts, s := PassAll(now, acts, early, s, before);
    acts, s := FetchesAndClaims(now, acts, early + before, s);
  }

  /** One row is parked after `early`, fetched and claimed after `before` on top,
      and dispatched after `mid` on top; then `rest` passes. */
  lemma {:induction false} SendsOver(now: DateTime, due: DateTime, early: seq<DateTime>, before: seq<DateTime>,
                                     mid: seq<DateTime>, rest: seq<DateTime>) returns (acts: seq<Action>)
    requires Reading(now) && AllReadings(early) && AllReadings(before) && AllReadings(mid) && AllReadings(rest)
    requires due.Valid() && TextLe(Format(due), Format(LastReading(now, early + before)))
    ensures IsRun(Start(now), acts) && Readings(acts) == early + before + mid + rest
    ensures ShouldSchedule(due, LastReading(now, early)) ==> Guarded(now, acts)
    ensures 0 in After(Start(now), acts).traces
    ensures var t := After(Start(now), acts).traces[0];
      && t.due == due
      && t.dispatches == [Dispatched(LastReading(now, early + before), LastReading(now, early + before + mid))]
  {
    hide IsRun, After, Readings, Format, DateTime.Unix, DateTime.Valid, TextLe, DueBatch, Guarded, ShouldSchedule;
    var s;
    acts, s := ClaimsParked(now, due, early, before);
    acts, s := PassAll(now, acts, early + before, s, mid);
    acts, s := Then(now, acts, early + before + mid, s, Dispatch(0, Delivered("")));
    assert early + before + mid + [] == early + before + mid;
    acts, s := PassAll(now, acts, early + before + mid, s, rest);
  }

  /** The fetch that led to a dispatch read a clock before the requested time. */
  predicate FetchedEarly(t: Trace) {
    exists k :: 0 <= k < |t.dispatches| && t.dispatches[k].fetched.Unix() < t.due.Unix()
  }

  /** Some run from `now` fetches and dispatches a row requested for `due` too early. */
  ghost predicate CanBeEarly(now: DateTime, due: DateTime) {
    exists acts, id :: IsRun(Start(now), acts) && id in After(Start(now), acts).traces
      && After(Start(now), acts).traces[id].due == due && FetchedEarly(After(Start(now), acts).traces[id])
  }

  /** A year past 9999 is later than any reading, and its text still counts as due. */
  lemma FarFutureIsLater(now: DateTime, due: DateTime)
    requires Reading(now) && due.Valid() && due.year > 9999
    ensures now.Unix() < due.Unix() && TextLe(Format(due), Format(now))
  {
    hide Format, TextLe;
    FieldsChronological(now, due);
    DueTestExact(due, now);
  }

  /** A row can be dispatched by a fetch before its time if and only if its
      requested year is after 9999; it then goes out at once. */
  lemma {:induction false} EarlyIff(now: DateTime, due: DateTime)
    requires Reading(now) && due.Valid()
    ensures CanBeEarly(now, due) <==> due.year > 9999
  {
    hide IsRun, After, Format, DateTime.Unix, DateTime.Valid, TextLe;
    if due.year > 9999 {
      FarFutureIsLater(now, due);
      var acts := SendsOver(now, due, [], [], [], []);
      var t := After(Start(now), acts).traces[0];
      assert t.dispatches[0].fetched.Unix() < t.due.Unix();
      assert FetchedEarly(t);
    } else if CanBeEarly(now, due) {
      var acts, id :| IsRun(Start(now), acts) && id in After(Start(now), acts).traces
        && After(Start(now), acts).traces[id].due == due && FetchedEarly(After(Start(now), acts).traces[id]);
      AtMostOnce(now, acts, id);
      TruncationKeepsSeconds(due);
      assert false;
    }
  }

  /** Set back between fetch and dispatch, the clock reads before the requested
      time when the message goes out. */
  lemma {:induction false} ClockSetBackSendsEarly(now: DateTime, due: DateTime,
                                                  at: DateTime) returns (acts: seq<Action>)
    requires Reading(now) && Reading(at) && due.Valid() && due.year <= 9999
    requires at.Unix() < due.Unix() <= now.Unix()
    ensures IsRun(Start(now), acts) && 0 in After(Start(now), acts).traces && Readings(acts) == [at]
    ensures var t := After(Start(now), acts).traces[0];
      t.due == due && |t.dispatches| == 1 && t.dispatches[0].at.Unix() < t.due.Unix() <= t.dispatches[0].fetched.Unix()
  {
    hide IsRun, After, Readings, Format, DateTime.Unix, DateTime.Valid, TextLe;
    DueTestExact(due, now);
    acts := SendsOver(now, due, [], [], [at], []);
  }

  // ---------------------------------------- early at the moment of dispatch

  predicate SentEarly(t: Trace) {
    exists k :: 0 <= k < |t.dispatches| && t.dispatches[k].at.Unix() < t.due.Unix()
  }

  /** Some run through exactly these readings dispatches a row requested for
      `due` before that time. */
  ghost predicate CanGoOutEarly(now: DateTime, due: DateTime, readings: seq<DateTime>) {
    exists acts, id :: IsRun(Start(now), acts) && Readings(acts) == readings && id in After(Start(now), acts).traces
      && After(Start(now), acts).traces[id].due == due && SentEarly(After(Start(now), acts).traces[id])
  }

  /** Where the clock steps back over `due`. */
  lemma {:induction false} StepBackAt(due: DateTime, now: DateTime, readings: seq<DateTime>) returns (i: nat)
    requires StepsBack(due, now, readings)
    ensures i < |readings| && readings[i].Unix() < due.Unix() <= LastReading(now, readings[..i]).Unix()
    decreases |readings|
  {
    hide DateTime.Unix;
    if readings[0].Unix() < due.Unix() <= now.Unix() {
      i := 0;
    } else {
      var k := StepBackAt(due, readings[0], readings[1..]);
      i := k + 1;
      assert readings[..i] == [readings[0]] + readings[1..][..k];
    }
  }

  lemma GoesOutEarly(now: DateTime, due: DateTime, readings: seq<DateTime>, acts: seq<Action>)
    requires IsRun(Start(now), acts) && Readings(acts) == readings && 0 in After(Start(now), acts).traces
    requires var t := After(Start(now), acts).traces[0];
      t.due == due && |t.dispatches| == 1 && t.dispatches[0].at.Unix() < due.Unix()
    ensures CanGoOutEarly(now, due, readings)
  {
    hide IsRun, After, Readings, DateTime.Unix;
    assert SentEarly(After(Start(now), acts).traces[0]);
  }

  /** Whatever the clock reads, a message can go out before its requested time if
      and only if the requested year is after 9999, or a reading before that time
      directly follows one at or past it. */
  lemma {:induction false} SentEarlyIff(now: DateTime, due: DateTime, readings: seq<DateTime>)
    requires Reading(now) && AllReadings(readings) && due.Valid()
    ensures CanGoOutEarly(now, due, readings) <==> due.year > 9999 || StepsBack(due, now, readings)
  {
    hide IsRun, After, Readings, StepsBack, Format, DateTime.Unix, DateTime.Valid, TextLe;
    if due.year > 9999 {
      FarFutureIsLater(now, due);
      var acts := SendsOver(now, due, [], [], [], readings);
      assert [] + [] + [] + readings == readings;
      GoesOutEarly(now, due, readings, acts);
    } else if StepsBack(due, now, readings) {
      var i := StepBackAt(due, now, readings);
      DueTestExact(due, LastReading(now, readings[..i]));
      assert readings[..i] + [] == readings[..i];
      var acts := SendsOver(now, due, readings[..i], [], [readings[i]], readings[i + 1..]);
      assert readings[..i] + [] + [readings[i]] + readings[i + 1..] == readings;
      GoesOutEarly(now, due, readings, acts);
    } else if CanGoOutEarly(now, due, readings) {
      var acts, id :| IsRun(Start(now), acts) && Readings(acts) == readings && id in After(Start(now), acts).traces
        && After(Start(now), acts).traces[id].due == due && SentEarly(After(Start(now), acts).traces[id]);
      AtMostOnce(now, acts, id);
      TruncationKeepsSeconds(due);
      assert false;
    }
  }

  // ------------------------------------- the same for what the guard parks

  /** After a reading at which the guard parks a message for `due`, the clock steps
      back over that time (or its year is one the text cannot order). */
  predicate Overtaken(due: DateTime, now: DateTime, readings: seq<DateTime>) {
    exists i :: 0 <= i <= |readings| && ShouldSchedule(due, LastReading(now, readings[..i]))
      && (due.year > 9999 || StepsBack(due, LastReading(now, readings[..i]), readings[i..]))
  }

  /** As `CanGoOutEarly`, on runs that park only what the guard let through. */
  ghost predicate GuardedGoesOutEarly(now: DateTime, due: DateTime, readings: seq<DateTime>) {
    exists acts, id :: IsRun(Start(now), acts) && Guarded(now, acts) && Readings(acts) == readings
      && id in After(Start(now), acts).traces && After(Start(now), acts).traces[id].due == due
      && SentEarly(After(Start(now), acts).traces[id])
  }

  lemma LastOfLast(now: DateTime, first: seq<DateTime>, more: seq<DateTime>)
    ensures LastReading(now, first + more) == LastReading(LastReading(now, first), more)
  {
    if more == [] {
      assert first + more == first;
    }
  }

  lemma {:induction false} SendsParkedAt(now: DateTime, due: DateTime, early: seq<DateTime>, later: seq<DateTime>,
                                         k: nat) returns (acts: seq<Action>)
    requires Reading(now) && AllReadings(early) && AllReadings(later) && due.Valid()
    requires ShouldSchedule(due, LastReading(now, early))
    requires due.year > 9999 || (k < |later|
      && later[k].Unix() < due.Unix() <= LastReading(LastReading(now, early), later[..k]).Unix())
    ensures IsRun(Start(now), acts) && Guarded(now, acts) && Readings(acts) == early + later
    ensures 0 in After(Start(now), acts).traces
    ensures var t := After(Start(now), acts).traces[0]; t.due == due && SentEarly(t)
  {
    hide IsRun, After, Guarded, Readings, ShouldSchedule, Format, DateTime.Unix, DateTime.Valid, TextLe;
    if due.year > 9999 {
      LastIsReading(now, early);
      FarFutureIsLater(LastReading(now, early), due);
      assert early + [] == early && early + [] + [] == early;
      acts := SendsOver(now, due, early, [], [], later);
    } else {
      LastOfLast(now, early, later[..k]);
      LastIsReading(now, early + later[..k]);
      DueTestExact(due, LastReading(now, early + later[..k]));
      assert early + later[..k] + [later[k]] + later[k + 1..] == early + later;
      acts := SendsOver(now, due, early, later[..k], [later[k]], later[k + 1..]);
    }
    assert After(Start(now), acts).traces[0].dispatches[0].at.Unix() < due.Unix();
  }

  /** Parked at the guard's reading, fetched just before the step back, dispatched just after. */
  lemma {:induction false} SendsParked(now: DateTime, due: DateTime,
                                       readings: seq<DateTime>) returns (acts: seq<Action>)
    requires Reading(now) && AllReadings(readings) && due.Valid() && Overtaken(due, now, readings)
    ensures IsRun(Start(now), acts) && Guarded(now, acts) && Readings(acts) == readings
    ensures 0 in After(Start(now), acts).traces
    ensures var t := After(Start(now), acts).traces[0]; t.due == due && SentEarly(t)
  {
    hide IsRun, After, Guarded, Readings, StepsBack, ShouldSchedule, Format, DateTime.Unix, TextLe, Reading;
    var i :| 0 <= i <= |readings| && ShouldSchedule(due, LastReading(now, readings[..i]))
      && (due.year > 9999 || StepsBack(due, LastReading(now, readings[..i]), readings[i..]));
    var early, later := readings[..i], readings[i..];
    var k: nat := 0;
    if due.year <= 9999 {
      k := StepBackAt(due, LastReading(now, early), later);
    }
    acts := SendsParkedAt(now, due, early, later, k);
    assert early + later == readings;
  }

  /** A step back seen from later on is one seen from earlier on. */
  lemma {:induction false} StepsBackFrom(due: DateTime, now: DateTime, first: seq<DateTime>, more: seq<DateTime>)
    requires StepsBack(due, LastReading(now, first), more)
    ensures StepsBack(due, now, first + more)
    decreases |first|
  {
    hide DateTime.Unix;
    if first == [] {
      assert first + more == more;
    } else {
      assert (first + more)[1..] == first[1..] + more;
      StepsBackFrom(due, first[0], first[1..], more);
    }
  }

  lemma KeptDue(s: System, a: Action, id: RowId)
    requires Inv(s) && Enabled(s, a)
    ensures id in s.traces ==> id in Next(s, a).traces && Next(s, a).traces[id].due == s.traces[id].due
    ensures id !in s.traces && id in Next(s, a).traces ==>
      a.Park? && a.id == id && Next(s, a).traces[id].due == a.sendAt
  {
    hide Format, DateTime.Unix, DateTime.Valid, TextLe, RowOk, PollerInv, DueBatch, Settled;
  }

  /** A row's requested time never changes. */
  lemma {:induction false} DueKept(s: System, acts: seq<Action>, id: RowId)
    requires Inv(s) && IsRun(s, acts) && id in s.traces
    ensures id in After(s, acts).traces && After(s, acts).traces[id].due == s.traces[id].due
    decreases |acts|
  {
    hide Inv;
    if acts != [] {
      KeptDue(s, acts[0], id);
      StepKeepsInv(s, acts[0]);
      DueKept(Next(s, acts[0]), acts[1..], id);
    }
  }

  /** Where a row of the end state was parked. */
  lemma {:induction false} ParkOf(s: System, acts: seq<Action>, id: RowId) returns (k: nat)
    requires Inv(s) && IsRun(s, acts) && id !in s.traces && id in After(s, acts).traces
    ensures k < |acts| && acts[k].Park? && acts[k].id == id && acts[k].sendAt == After(s, acts).traces[id].due
    ensures IsRun(s, acts[..k]) && Inv(After(s, acts[..k])) && Enabled(After(s, acts[..k]), acts[k])
    ensures var s' := Next(After(s, acts[..k]), acts[k]);
      IsRun(s', acts[k + 1..]) && After(s', acts[k + 1..]) == After(s, acts)
    decreases |acts|
  {
    hide Inv, Enabled, Next;
    var s' := Next(s, acts[0]);
    KeptDue(s, acts[0], id);
    StepKeepsInv(s, acts[0]);
    if id in s'.traces {
      DueKept(s', acts[1..], id);
      k := 0;
      assert acts[..k] == [];
    } else {
      var n := ParkOf(s', acts[1..], id);
      k := n + 1;
      assert acts[..k][1..] == acts[1..][..n];
    }
  }

  lemma {:induction false} ClockIsLast(s: System, acts: seq<Action>)
    requires IsRun(s, acts)
    ensures After(s, acts).now == LastReading(s.now, Readings(acts))
    decreases |acts|
  {
    hide Enabled, Next;
    if acts != [] {
      ClockAfter(s, acts[0]);
      ClockIsLast(Next(s, acts[0]), acts[1..]);
      LastOfLast(s.now, ReadBy(acts[0]), Readings(acts[1..]));
    }
  }

  lemma ParkedIsPast(s: System, a: Action, due: DateTime)
    requires Inv(s) && Enabled(s, a) && a.Park?
    ensures PastInv(Next(s, a), a.id, due)
  {
    hide Format, DateTime.Unix, DateTime.Valid, RowOk;
    forall p | p in s.pollers ensures a.id !in s.pollers[p].queue {
      assert PollerInv(s, p);
    }
  }

  lemma StartInv(now: DateTime)
    requires Reading(now)
    ensures Inv(Start(now))
  {
  }

  lemma ReadingsAround(acts: seq<Action>, k: nat)
    requires k < |acts| && acts[k].Park?
    ensures Readings(acts) == Readings(acts[..k]) + Readings(acts[k + 1..])
  {
    assert acts == acts[..k] + acts[k..];
    ReadingsSplit(acts[..k], acts[k..]);
    assert acts[k..][1..] == acts[k + 1..];
  }

  lemma GuardThenBack(due: DateTime, now: DateTime, pre: seq<DateTime>, later: seq<DateTime>)
    requires LetThrough(due, now, pre) && (due.year > 9999 || StepsBack(due, LastReading(now, pre), later))
    ensures Overtaken(due, now, pre + later)
  {
    hide StepsBack, ShouldSchedule;
    var i :| 0 <= i <= |pre| && ShouldSchedule(due, LastReading(now, pre[..i]));
    var readings := pre + later;
    assert readings[..i] == pre[..i] && readings[i..] == pre[i..] + later && pre == pre[..i] + pre[i..];
    if due.year <= 9999 {
      LastOfLast(now, pre[..i], pre[i..]);
      StepsBackFrom(due, LastReading(now, pre[..i]), pre[i..], later);
    }
  }


  lemma {:induction false} EarlyWasOvertaken(now: DateTime, acts: seq<Action>, id: RowId)
    requires Reading(now) && IsRun(Start(now), acts) && Guarded(now, acts)
    requires id in After(Start(now), acts).traces && SentEarly(After(Start(now), acts).traces[id])
    ensures Overtaken(After(Start(now), acts).traces[id].due, now, Readings(acts))
  {
    hide IsRun, After, Readings, StepsBack, ShouldSchedule, Enabled, Next, DateTime.Unix, DateTime.Valid, Inv;
    assert Inv(Start(now)) by {
      StartInv(now);
    }
    var k := ParkOf(Start(now), acts, id);
    var s, due, post := After(Start(now), acts[..k]), acts[k].sendAt, acts[k + 1..];
    ClockIsLast(Start(now), acts[..k]);
    var pre, later := Readings(acts[..k]), Readings(post);
    assert Readings(acts) == pre + later by {
      ReadingsAround(acts, k);
    }
    if due.year <= 9999 && !StepsBack(due, s.now, later) {
      ParkedIsPast(s, acts[k], due);
      ClockAfter(s, acts[k]);
      PastOverRun(Next(s, acts[k]), post, id, due);
      AtMostOnce(now, acts, id);
      TruncationKeepsSeconds(due);
      assert false;
    }
    GuardThenBack(due, now, pre, later);
  }

  /** A message that the schedule guard parked can go out before its requested time
      if and only if that year is after 9999, or the clock steps back over that
      time after the guard read it. */
  lemma {:induction false} GuardedEarlyIff(now: DateTime, due: DateTime, readings: seq<DateTime>)
    requires Reading(now) && AllReadings(readings) && due.Valid()
    ensures GuardedGoesOutEarly(now, due, readings) <==> Overtaken(due, now, readings)
  {
    hide IsRun, After, Guarded, Readings, Overtaken, SentEarly;
    if Overtaken(due, now, readings) {
      var acts := SendsParked(now, due, readings);
      assert SentEarly(After(Start(now), acts).traces[0]);
    } else if GuardedGoesOutEarly(now, due, readings) {
      var acts, id :| IsRun(Start(now), acts) && Guarded(now, acts) && Readings(acts) == readings
        && id in After(Start(now), acts).traces && After(Start(now), acts).traces[id].due == due
        && SentEarly(After(Start(now), acts).traces[id]);
      EarlyWasOvertaken(now, acts, id);
      assert false;
    }
  }
}
