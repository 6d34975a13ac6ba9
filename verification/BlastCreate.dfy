// `create_blast`: dedup the requested recipients, drop those already delivered
// to, store the job row and then one row per distinct recipient.
module BlastCreate {
  import opened Wrappers
  import opened BlastModel
  import opened BlastRows
  import opened BlastMachine
  import opened BlastStore

  datatype Created = Created(total: nat, skippedDup: nat)

  /** The canonical recipients in order of first occurrence; entries that do not
      parse are left out. */
  function Firsts(raw: seq<string>, parse: string -> Option<Jid>): seq<Jid> {
    if raw == [] then [] else
    var r := Firsts(raw[..|raw| - 1], parse);
    var last := parse(raw[|raw| - 1]);
    if last.None? || last.value in r then r else r + [last.value]
  }

  /** `retain`: the elements outside `gone`, in order. */
  function Without(s: seq<Jid>, gone: set<Jid>): seq<Jid> {
    if s == [] then [] else (if s[0] in gone then [] else [s[0]]) + Without(s[1..], gone)
  }

  function ToSet(s: seq<Jid>): set<Jid> { set j | j in s }

  /** Some row to insert is for this recipient. */
  predicate HasNew(newRows: seq<NewRow>, jid: Jid) {
    exists i :: 0 <= i < |newRows| && newRows[i].jid == jid
  }

  predicate NoRepeats(s: seq<Jid>) {
    forall i, j :: 0 <= i < j < |s| ==> s[i] != s[j]
  }

  lemma {:induction false} WithoutMembers(s: seq<Jid>, gone: set<Jid>)
    ensures forall j :: j in Without(s, gone) <==> j in s && j !in gone
  {
    if s != [] {
      WithoutMembers(s[1..], gone);
    }
  }

  /** What is kept stays in order. */
  lemma {:induction false} WithoutAppend(a: seq<Jid>, b: seq<Jid>, gone: set<Jid>)
    ensures Without(a + b, gone) == Without(a, gone) + Without(b, gone)
  {
    if a == [] {
      assert a + b == b;
    } else {
      assert (a + b)[1..] == a[1..] + b;
      WithoutAppend(a[1..], b, gone);
    }
  }

  /** Position `i` of the request names `a`, and none up to there names `b`. */
  predicate NamedBefore(raw: seq<string>, parse: string -> Option<Jid>, a: Jid, b: Jid, i: nat) {
    i < |raw| && parse(raw[i]) == Some(a) && forall k :: 0 <= k <= i ==> parse(raw[k]) != Some(b)
  }

  ghost predicate FirstNamed(raw: seq<string>, parse: string -> Option<Jid>, a: Jid, b: Jid) {
    exists i :: NamedBefore(raw, parse, a, b, i)
  }

  /** Of two recipients the one named first comes first. */
  ghost predicate InOrderOfNaming(raw: seq<string>, parse: string -> Option<Jid>, r: seq<Jid>) {
    forall x, y :: 0 <= x < y < |r| ==> FirstNamed(raw, parse, r[x], r[y])
  }

  /** The recipients are those named, and of two the one named first comes first. */
  lemma {:induction false} FirstsInOrder(raw: seq<string>, parse: string -> Option<Jid>)
    ensures forall j :: j in Firsts(raw, parse) <==> exists i :: 0 <= i < |raw| && parse(raw[i]) == Some(j)
    ensures InOrderOfNaming(raw, parse, Firsts(raw, parse))
  {
    if raw != [] {
      var init, last := raw[..|raw| - 1], parse(raw[|raw| - 1]);
      FirstsInOrder(init, parse);
      var r0, r := Firsts(init, parse), Firsts(raw, parse);
      assert forall i :: 0 <= i < |init| ==> raw[i] == init[i];
      if last.Some? {
        assert parse(raw[|raw| - 1]) == last;
      }
      forall x, y | 0 <= x < y < |r| ensures FirstNamed(raw, parse, r[x], r[y]) {
        if y < |r0| {
          assert FirstNamed(init, parse, r0[x], r0[y]);
          var i :| NamedBefore(init, parse, r0[x], r0[y], i);
          assert NamedBefore(raw, parse, r[x], r[y], i);
        } else {
          assert r[x] == r0[x] && r0[x] in r0 && r[y] !in r0;
          var i :| 0 <= i < |init| && parse(init[i]) == Some(r0[x]);
          assert NamedBefore(raw, parse, r[x], r[y], i);
        }
      }
    }
  }

  lemma {:induction false} WithoutKeeps(s: seq<Jid>, gone: set<Jid>)
    requires NoRepeats(s)
    ensures NoRepeats(Without(s, gone)) && |Without(s, gone)| <= |s|
    ensures forall j :: j in Without(s, gone) <==> j in s && j !in gone
  {
    WithoutMembers(s, gone);
    if s != [] {
      WithoutMembers(s[1..], gone);
      WithoutKeeps(s[1..], gone);
    }
  }

  /** The row the inserts leave for one new recipient. */
  function StoredRow(n: NewRow): Row {
    Row(n.jid, if n.skipped then SkippedDup else Pending, 0, None, None)
  }

  lemma {:induction false} InsertAllDistinct(rows: seq<Row>, newRows: seq<NewRow>)
    requires forall i, j :: 0 <= i < j < |newRows| ==> newRows[i].jid != newRows[j].jid
    requires forall i, j :: 0 <= i < |rows| && 0 <= j < |newRows| ==> rows[i].jid != newRows[j].jid
    ensures var r := InsertAll(rows, newRows);
      && |r| == |rows| + |newRows|
      && (forall i :: 0 <= i < |rows| ==> r[i] == rows[i])
      && (forall i :: 0 <= i < |newRows| ==> r[|rows| + i] == StoredRow(newRows[i]))
    decreases |newRows|
  {
    if newRows != [] {
      var n, rest := newRows[0], newRows[1..];
      assert !HasJid(rows, n.jid);
      var rows' := InsertRow(rows, n);
      assert forall j :: 0 <= j < |rest| ==> rest[j] == newRows[j + 1];
      InsertAllDistinct(rows', rest);
      forall i | 0 <= i < |newRows| ensures InsertAll(rows, newRows)[|rows| + i] == StoredRow(newRows[i]) {
        if i > 0 {
          assert newRows[i] == rest[i - 1];
        }
      }
    }
  }

  /** Tags each recipient as a pending row. */
  function PendingRows(s: seq<Jid>): seq<NewRow> {
    seq(|s|, i requires 0 <= i < |s| => NewRow(s[i], false))
  }

  lemma {:induction false} CountAppend(a: seq<NewRow>, n: NewRow)
    ensures CountAccepted(a + [n]) == CountAccepted(a) + if n.skipped then 0 else 1
  {
    if a == [] {
      assert (a + [n])[1..] == [];
    } else {
      assert (a + [n])[1..] == a[1..] + [n];
      CountAppend(a[1..], n);
    }
  }

  lemma {:induction false} CountPending(a: seq<NewRow>)
    requires forall i :: 0 <= i < |a| ==> !a[i].skipped
    ensures CountAccepted(a) == |a|
  {
    if a != [] {
      CountPending(a[1..]);
    }
  }

  predicate AllParse(raw: seq<string>, parse: string -> Option<Jid>) {
    forall i :: 0 <= i < |raw| ==> parse(raw[i]).Some?
  }

  /** The request loop: canonicalise, keep first occurrences, count repeats. */
  method Collect(raw: seq<string>, parse: string -> Option<Jid>)
    returns (bad: seq<string>, accepted: seq<Jid>, skippedDup: nat)
    ensures bad == [] <==> AllParse(raw, parse)
    ensures accepted == Firsts(raw, parse) && NoRepeats(accepted)
    ensures |accepted| + skippedDup + |bad| == |raw|
    ensures forall j :: j in accepted <==> exists i :: 0 <= i < |raw| && parse(raw[i]) == Some(j)
  {
    bad, accepted, skippedDup := [], [], 0;
    var seen: set<Jid> := {};
    var i := 0;
    while i < |raw|
      invariant 0 <= i <= |raw|
      invariant bad == [] <==> forall k :: 0 <= k < i ==> parse(raw[k]).Some?
      invariant accepted == Firsts(raw[..i], parse) && NoRepeats(accepted)
      invariant forall j :: j in seen <==> j in accepted
      invariant |accepted| + skippedDup + |bad| == i
      invariant forall j :: j in accepted <==> exists k :: 0 <= k < i && parse(raw[k]) == Some(j)
    {
      assert raw[..i + 1][..i] == raw[..i];
      match parse(raw[i]) {
        case Some(jid) =>
          if jid !in seen {
            seen := seen + {jid};
            accepted := accepted + [jid];
          } else {
            skippedDup := skippedDup + 1;
          }
        case None =>
          bad := bad + [raw[i]];
      }
      i := i + 1;
    }
    assert raw[..i] == raw;
  }

  /** The recipient rows to insert: the accepted ones in order, then the seen but
      not accepted ones in the arbitrary order of a hash set. */
  method BuildRows(accepted: seq<Jid>, seen: set<Jid>) returns (newRows: seq<NewRow>)
    requires NoRepeats(accepted) && forall j :: j in accepted ==> j in seen
    ensures |newRows| == |seen| && CountAccepted(newRows) == |accepted| <= |newRows|
    ensures newRows[..|accepted|] == PendingRows(accepted)
    ensures forall i, j :: 0 <= i < j < |newRows| ==> newRows[i].jid != newRows[j].jid
    ensures forall j :: j in seen <==> HasNew(newRows, j)
    ensures forall i :: 0 <= i < |newRows| ==> (newRows[i].skipped <==> newRows[i].jid !in accepted)
  {
    hide HasNew, CountAccepted;
    newRows := PendingRows(accepted);
    CountPending(newRows);
    var acceptedSet := ToSet(accepted);
    CardinalityOf(accepted);
    var rest := seen - acceptedSet;
    assert |seen| == |acceptedSet| + |rest| by {
      assert seen == acceptedSet + rest;
    }
    PendingHaveNew(accepted);
    while rest != {}
      invariant rest <= seen - acceptedSet
      invariant |newRows| + |rest| == |seen| && |accepted| <= |newRows|
      invariant CountAccepted(newRows) == |accepted| && newRows[..|accepted|] == PendingRows(accepted)
      invariant forall i, j :: 0 <= i < j < |newRows| ==> newRows[i].jid != newRows[j].jid
      invariant forall j :: j in seen - rest <==> HasNew(newRows, j)
      invariant forall i :: 0 <= i < |newRows| ==> (newRows[i].skipped <==> newRows[i].jid !in accepted)
      decreases rest
    {
      var j :| j in rest;
      CountAppend(newRows, NewRow(j, true));
      HasNewAppend(newRows, NewRow(j, true));
      assert !HasNew(newRows, j);
      newRows := newRows + [NewRow(j, true)];
      rest := rest - {j};
    }
  }

  lemma PendingHaveNew(accepted: seq<Jid>)
    ensures forall j :: HasNew(PendingRows(accepted), j) <==> j in accepted
  {
    var rows := PendingRows(accepted);
    forall j ensures HasNew(rows, j) <==> j in accepted {
      if j in accepted {
        var i :| 0 <= i < |accepted| && accepted[i] == j;
        assert rows[i].jid == j;
      }
    }
  }

  lemma HasNewAppend(newRows: seq<NewRow>, n: NewRow)
    ensures forall j :: HasNew(newRows + [n], j) <==> HasNew(newRows, j) || j == n.jid
    ensures !HasNew(newRows, n.jid) ==> forall i :: 0 <= i < |newRows| ==> newRows[i].jid != n.jid
  {
    forall j ensures HasNew(newRows + [n], j) <==> HasNew(newRows, j) || j == n.jid {
      if HasNew(newRows, j) {
        var i :| 0 <= i < |newRows| && newRows[i].jid == j;
        assert (newRows + [n])[i].jid == j;
      }
      if j == n.jid {
        assert (newRows + [n])[|newRows|].jid == j;
      }
    }
  }

  lemma {:induction false} CardinalityOf(s: seq<Jid>)
    requires NoRepeats(s)
    ensures |ToSet(s)| == |s|
  {
    if s != [] {
      CardinalityOf(s[1..]);
      assert ToSet(s) == ToSet(s[1..]) + {s[0]};
    }
  }

  /** What a successful create leaves in the tables. */
  ghost predicate Stored(job: Job, rows: seq<Row>, total: nat, skippedDup: nat, seen: set<Jid>, accepted: seq<Jid>) {
    && job.status.JobPending? && job.total == total == |accepted| && job.skippedDupCount == skippedDup
    && total <= |rows| && |rows| == |seen| && Distinct(rows)
    && (forall i :: 0 <= i < total ==> rows[i] == Row(accepted[i], Pending, 0, None, None))
    && (forall i :: total <= i < |rows| ==> rows[i].status == SkippedDup && rows[i].attempts == 0)
    && (forall j :: j in seen <==> HasJid(rows, j))
  }

  /** POST .../blast, undisturbed. Every requested recipient is accepted or
      counted as a duplicate; there is one row for each distinct one; the pending
      rows are exactly `total`, those no blast of the session delivered to yet
      when dedup is asked for. */
  method CreateBlast(db: Store, id: JobId, session: string, sessionKnown: bool, bodyFits: bool,
                     raw: seq<string>, parse: string -> Option<Jid>, dedup: bool, maxAttempts: nat,
                     sendAt: Option<int>, now: int)
    returns (reply: Reply<Created>, ghost newRows: seq<NewRow>)
    requires db.Valid() && id !in db.jobs
    modifies db
    ensures db.Valid()
    ensures reply.NotFound? <==> !sessionKnown
    ensures reply.BadRequest? <==>
      sessionKnown && (!bodyFits || raw == [] || !AllParse(raw, parse))
    ensures !reply.Ok? ==> db.jobs == old(db.jobs) && db.recipients == old(db.recipients)
    ensures reply.Ok? ==> reply.value.total + reply.value.skippedDup == |raw|
    ensures reply.Ok? ==>
      && id in db.jobs && id in db.recipients
      && db.jobs == old(db.jobs)[id := Job(session, true, maxAttempts, JobPending, reply.value.total, 0, 0, 0,
                                           reply.value.skippedDup, sendAt, now, None, None)]
      && db.recipients == old(db.recipients)[id := db.recipients[id]]
      && Stored(db.jobs[id], db.recipients[id], reply.value.total, reply.value.skippedDup,
                ToSet(Firsts(raw, parse)),
                Without(Firsts(raw, parse), if dedup then old(db.SentAmong(session, Firsts(raw, parse))) else {}))
      && FreshJob(db.jobs[id], newRows) && db.recipients[id] == InsertAll([], newRows)
  {
    hide Stored, InsertAll, FreshJob;
    newRows := [];
    if !sessionKnown {
      return NotFound, [];
    }
    if !bodyFits {
      return BadRequest, [];
    }
    if raw == [] {
      return BadRequest, [];
    }
    var bad, accepted, skippedDup := Collect(raw, parse);
    if bad != [] {
      return BadRequest, [];
    }
    var seen := ToSet(accepted);
    CardinalityOf(accepted);
    var sent: set<Jid> := {};
    if dedup && accepted != [] {
      sent := db.AlreadySent(session, accepted);
      var before := |accepted|;
      WithoutKeeps(accepted, sent);
      accepted := Without(accepted, sent);
      skippedDup := skippedDup + (before - |accepted|);
    } else {
      WithoutNothing(accepted);
    }
    assert sent == if dedup then db.SentAmong(session, Firsts(raw, parse)) else {};
    var job := Job(session, true, maxAttempts, JobPending, |accepted|, 0, 0, 0, skippedDup, sendAt, now, None, None);
    newRows := StoreJob(db, id, job, accepted, seen);
    reply := Reply.Ok(Created(|accepted|, skippedDup));
  }

  /** The two inserts of the create handler. */
  method StoreJob(db: Store, id: JobId, job: Job, accepted: seq<Jid>,
                  seen: set<Jid>) returns (ghost newRows: seq<NewRow>)
    requires db.Valid() && id !in db.jobs
    requires NoRepeats(accepted) && forall j :: j in accepted ==> j in seen
    requires job.status.JobPending? && job.total == |accepted| && job.sentCount == job.failedCount == job.dlqCount == 0
    requires job.startedAt.None? && job.finishedAt.None?
    modifies db
    ensures db.Valid() && id in db.jobs && id in db.recipients
    ensures db.jobs == old(db.jobs)[id := job] && db.recipients == old(db.recipients)[id := db.recipients[id]]
    ensures Stored(job, db.recipients[id], |accepted|, job.skippedDupCount, seen, accepted)
    ensures FreshJob(job, newRows) && db.recipients[id] == InsertAll([], newRows)
  {
    hide Stored, InsertAll;
    var rows := BuildRows(accepted, seen);
    db.InsertJob(id, job);
    StoredAsAsked(job, rows, seen, accepted);
    db.InsertRecipients(id, rows);
    newRows := rows;
  }

  lemma {:induction false} WithoutNothing(s: seq<Jid>)
    ensures Without(s, {}) == s
  {
    if s != [] {
      WithoutNothing(s[1..]);
    }
  }

  lemma {:induction false} StoredAsAsked(job: Job, newRows: seq<NewRow>, seen: set<Jid>, accepted: seq<Jid>)
    requires job.status.JobPending? && job.total == |accepted| <= |newRows| && |newRows| == |seen|
    requires newRows[..|accepted|] == PendingRows(accepted)
    requires forall i, j :: 0 <= i < j < |newRows| ==> newRows[i].jid != newRows[j].jid
    requires forall j :: j in seen <==> HasNew(newRows, j)
    requires forall i :: 0 <= i < |newRows| ==> (newRows[i].skipped <==> newRows[i].jid !in accepted)
    ensures Stored(job, InsertAll([], newRows), |accepted|, job.skippedDupCount, seen, accepted)
  {
    hide InsertAll, HasNew, HasJid, PendingRows, StoredRow, Distinct;
    InsertAllDistinct([], newRows);
    var rows := InsertAll([], newRows);
    assert forall i :: 0 <= i < |newRows| ==> rows[i] == StoredRow(newRows[i]);
    RestSkipped(newRows, accepted);
    RowsStored(rows, newRows, accepted);
    SameKeys(rows, newRows);
  }

  /** Each row is the new row it was stored from. */
  lemma RowsStored(rows: seq<Row>, newRows: seq<NewRow>, accepted: seq<Jid>)
    requires |rows| == |newRows| && forall i :: 0 <= i < |rows| ==> rows[i] == StoredRow(newRows[i])
    requires |accepted| <= |newRows| && newRows[..|accepted|] == PendingRows(accepted)
    requires forall i, j :: 0 <= i < j < |newRows| ==> newRows[i].jid != newRows[j].jid
    requires forall i :: |accepted| <= i < |newRows| ==> newRows[i].skipped
    ensures Distinct(rows)
    ensures forall i :: 0 <= i < |accepted| ==> rows[i] == Row(accepted[i], Pending, 0, None, None)
    ensures forall i :: |accepted| <= i < |rows| ==> rows[i].status == SkippedDup && rows[i].attempts == 0
    ensures forall i :: 0 <= i < |rows| ==> rows[i].jid == newRows[i].jid
  {
    forall i | 0 <= i < |accepted|
      ensures rows[i] == Row(accepted[i], Pending, 0, None, None)
    {
      assert newRows[..|accepted|][i] == newRows[i];
    }
  }

  /** The rows after the accepted ones are those of the duplicates. */
  lemma RestSkipped(newRows: seq<NewRow>, accepted: seq<Jid>)
    requires |accepted| <= |newRows| && newRows[..|accepted|] == PendingRows(accepted)
    requires forall i, j :: 0 <= i < j < |newRows| ==> newRows[i].jid != newRows[j].jid
    requires forall i :: 0 <= i < |newRows| ==> (newRows[i].skipped <==> newRows[i].jid !in accepted)
    ensures forall i :: |accepted| <= i < |newRows| ==> newRows[i].skipped
  {
    forall i | |accepted| <= i < |newRows|
      ensures newRows[i].jid !in accepted
    {
      forall k | 0 <= k < |accepted|
        ensures accepted[k] != newRows[i].jid
      {
        assert newRows[..|accepted|][k] == newRows[k] && newRows[k].jid == accepted[k];
      }
    }
  }

  lemma {:induction false} SameKeys(rows: seq<Row>, newRows: seq<NewRow>)
    requires |rows| == |newRows| && forall i :: 0 <= i < |rows| ==> rows[i].jid == newRows[i].jid
    ensures forall j :: HasNew(newRows, j) <==> HasJid(rows, j)
  {
    forall j ensures HasNew(newRows, j) <==> HasJid(rows, j) {
      if HasJid(rows, j) {
        var i :| 0 <= i < |rows| && rows[i].jid == j;
        assert newRows[i].jid == j;
      }
      if HasNew(newRows, j) {
        var i :| 0 <= i < |newRows| && newRows[i].jid == j;
        assert rows[i].jid == j;
      }
    }
  }
}
