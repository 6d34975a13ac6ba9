// The due test of the claim SELECT, which compares stored text as the scheduler
// does, and a blast that it claims at once.
module BlastDue {
  import opened Wrappers
  import opened BlastModel
  import opened BlastRows
  import opened BlastMachine
  import opened BlastSafety
  import opened BlastGaps
  import opened Timestamps

  /** The test of the machine is the comparison of the two texts. */
  lemma {:induction false} DueIsTextTest(job: Job, sendAt: DateTime, now: DateTime)
    requires sendAt.Valid() && now.Valid() && 0 <= now.year <= 9999 && job.sendAt == Some(sendAt.Unix())
    ensures job.Due(now.Unix()) <==> TextLe(Format(sendAt), Format(now))
  {
    hide Format, TextLe, DateTime.Unix;
    PastYear9999(sendAt);
    PastYear9999(now);
    DueTestExact(sendAt, now);
  }

  lemma {:induction false} PastYear9999(t: DateTime)
    requires t.Valid()
    ensures t.Unix() >= YEAR_10000 <==> t.year > 9999
  {
    hide DateTime.Unix;
    var limit := DateTime(10000, 1, 1, 0, 0, 0, 0);
    assert limit.Unix() == YEAR_10000 by {
      FirstOfYear10000();
    }
    FieldsChronological(t, limit);
  }

  lemma FirstOfYear10000()
    ensures DateTime(10000, 1, 1, 0, 0, 0, 0).Unix() == YEAR_10000
  {
  }

  /** Given readings of years up to 9999, a blast is claimed before its start time
      if and only if that is after the year 9999, and then at any time. */
  lemma {:induction false} ClaimedEarlyIff(job: Job, sendAt: DateTime, now: DateTime)
    requires sendAt.Valid() && now.Valid() && 0 <= now.year <= 9999 && job.sendAt == Some(sendAt.Unix())
    ensures job.Due(now.Unix()) && now.Unix() < sendAt.Unix() <==> sendAt.year > 9999
  {
    hide DateTime.Unix;
    PastYear9999(sendAt);
    PastYear9999(now);
  }

  /** A blast for the year 10000 is running at the first tick. */
  lemma {:induction false} FarBlastRunsAtOnce() returns (run: seq<Action>, l: Local)
    ensures At(run, l) && l.js.job.sendAt == Some(YEAR_10000)
    ensures l.js.job.status.JobRunning? && l.js.job.startedAt == Some(0)
  {
    var job := SampleJob(1).(sendAt := Some(YEAR_10000));
    var a := CreateJob(0, job, [NewRow(7, false)]);
    assert CountAccepted([NewRow(7, false)]) == 1;
    RunThen(INITIAL, [], a);
    run, l := [] + [a], Local(JobState(job, [], [NewRow(7, false)], map[], EMPTY_LEDGER), Off);
    run, l := Claims(run, l);
  }
}
