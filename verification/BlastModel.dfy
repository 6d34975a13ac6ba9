// Entities of the blast (bulk-send) feature: one job row per campaign and one
// recipient row per (job, recipient) pair.
module BlastModel {
  import opened Wrappers

  type JobId = nat
  type Jid = nat
  type CallId = nat

  /** Recipients fetched per batch pass of the worker. */
  const BATCH_SIZE: nat := 50

  /** 10000-01-01 00:00:00 UTC in seconds: from then on the stored time starts with
      a plus sign, which sorts before every clock reading. */
  const YEAR_10000: int := 253402300800

  datatype JobStatus = JobPending | JobRunning | Completed | CompletedWithFailures | Cancelled | JobFailed
  {
    /** True once the job never sends again on its own. */
    predicate IsTerminal() {
      Completed? || CompletedWithFailures? || Cancelled? || JobFailed?
    }
  }

  datatype RecipientStatus = Pending | Sending | Sent | Failed | Dlq | SkippedDup

  /** `maxAttempts` is the option stored with the job; a job whose options no
      longer parse carries the default, 3. Times are whole seconds. */
  datatype Job = Job(
    session: string,
    bodyParses: bool,
    maxAttempts: nat,
    status: JobStatus,
    total: nat,
    sentCount: nat,
    failedCount: nat,
    dlqCount: nat,
    skippedDupCount: nat,
    sendAt: Option<int>,
    createdAt: int,
    startedAt: Option<int>,
    finishedAt: Option<int>)
  {
    /** Attempts a recipient gets before it is dead-lettered. */
    function AttemptCap(): (m: nat)
      ensures m >= 1
    {
      if maxAttempts == 0 then 1 else maxAttempts
    }

    /** Due for the worker by the text test of the claim: no start time, or the
        start time has come, or its year is after 9999. */
    predicate Due(now: int) {
      sendAt.None? || sendAt.value <= now || sendAt.value >= YEAR_10000
    }
  }

  datatype Row = Row(
    jid: Jid,
    status: RecipientStatus,
    attempts: nat,
    lastError: Option<string>,
    messageId: Option<string>)

  /** What a batch SELECT hands the worker about one pending row. */
  datatype Snap = Snap(jid: Jid, attempts: nat)

  /** A recipient row the create handler still has to insert. */
  datatype NewRow = NewRow(jid: Jid, skipped: bool)

  /** Outcome of one dispatch to WhatsApp: nothing is assumed about which. */
  datatype Outcome = Delivered(messageId: string) | Rejected(error: string)
}
