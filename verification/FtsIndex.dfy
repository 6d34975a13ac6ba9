// The message table and the full-text rows kept beside it (SQLite branch).
module FtsIndex {
  import opened Wrappers

  type Session = nat
  type MessageId = nat

  /** `content` stands for the other columns. */
  datatype Message = Message(session: Session, id: MessageId, body: Option<string>, content: string)

  datatype FtsRow = FtsRow(body: string, session: Session, id: MessageId)

  /** One insert call, and whether the statement on the full-text table works. */
  datatype Attempt = Attempt(m: Message, ftsWorks: bool)

  datatype Tables = Tables(messages: seq<Message>, fts: seq<FtsRow>)

  predicate SameKey(m: Message, session: Session, id: MessageId) {
    m.session == session && m.id == id
  }

  predicate HasKey(messages: seq<Message>, session: Session, id: MessageId) {
    exists i :: 0 <= i < |messages| && SameKey(messages[i], session, id)
  }

  /** INSERT OR IGNORE under the unique key; the full-text row only follows an
      insert that took place, and its own failure is ignored. */
  function Inserted(t: Tables, a: Attempt): Tables {
    if HasKey(t.messages, a.m.session, a.m.id) then t
    else
      Tables(t.messages + [a.m],
             if a.m.body.Some? && a.ftsWorks then t.fts + [FtsRow(a.m.body.value, a.m.session, a.m.id)] else t.fts)
  }

  function TablesAfter(attempts: seq<Attempt>): Tables {
    if attempts == [] then Tables([], [])
    else Inserted(TablesAfter(attempts[..|attempts| - 1]), attempts[|attempts| - 1])
  }

  class MessageStore {
    var messages: seq<Message>
    var fts: seq<FtsRow>

    constructor ()
      ensures Tables(messages, fts) == TablesAfter([])
    {
      messages, fts := [], [];
    }

    /** INSERT OR IGNORE: the count of changed rows. */
    method InsertOrIgnore(m: Message) returns (changed: nat)
      modifies this`messages
      ensures changed == if HasKey(old(messages), m.session, m.id) then 0 else 1
      ensures messages == if changed == 0 then old(messages) else old(messages) + [m]
    {
      for i := 0 to |messages|
        invariant forall j :: 0 <= j < i ==> !SameKey(messages[j], m.session, m.id)
      {
        if SameKey(messages[i], m.session, m.id) {
          return 0;
        }
      }
      messages := messages + [m];
      changed := 1;
    }

    method Insert(m: Message, ftsWorks: bool)
      modifies this
      ensures Tables(messages, fts) == Inserted(old(Tables(messages, fts)), Attempt(m, ftsWorks))
    {
      var changed := InsertOrIgnore(m);
      if changed > 0 {
        if m.body.Some? && ftsWorks {
          fts := fts + [FtsRow(m.body.value, m.session, m.id)];
        }
      }
    }

    /** The search join: for each matching full-text row, the messages with its key. */
    method Search(matches: FtsRow -> bool) returns (found: seq<Message>)
      ensures found == Joined(fts, messages, matches)
    {
      found := [];
      for i := 0 to |fts|
        invariant found == Joined(fts[..i], messages, matches)
      {
        assert fts[..i + 1][..i] == fts[..i];
        if matches(fts[i]) {
          var before := found;
          for j := 0 to |messages|
            invariant found == before + WithKey(messages[..j], fts[i].session, fts[i].id)
          {
            assert messages[..j + 1][..j] == messages[..j];
            if SameKey(messages[j], fts[i].session, fts[i].id) {
              found := found + [messages[j]];
            }
          }
          assert messages[..|messages|] == messages;
        }
      }
      assert fts[..|fts|] == fts;
    }
  }

  function WithKey(messages: seq<Message>, session: Session, id: MessageId): seq<Message> {
    if messages == [] then []
    else
      var n := |messages| - 1;
      WithKey(messages[..n], session, id) + (if SameKey(messages[n], session, id) then [messages[n]] else [])
  }

  function Joined(fts: seq<FtsRow>, messages: seq<Message>, matches: FtsRow -> bool): seq<Message> {
    if fts == [] then []
    else
      var n := |fts| - 1;
      Joined(fts[..n], messages, matches) +
      (if matches(fts[n]) then WithKey(messages, fts[n].session, fts[n].id) else [])
  }

  // ---- What any sequence of inserts leaves ----

  /** The first attempt with that key. */
  function FirstFor(attempts: seq<Attempt>, session: Session, id: MessageId): Option<Attempt> {
    if attempts == [] then None
    else
      var n := |attempts| - 1;
      match FirstFor(attempts[..n], session, id)
      case Some(a) => Some(a)
      case None => if SameKey(attempts[n].m, session, id) then Some(attempts[n]) else None
  }

  ghost predicate UniqueMessages(messages: seq<Message>) {
    forall i, j :: 0 <= i < j < |messages| ==> !SameKey(messages[i], messages[j].session, messages[j].id)
  }

  ghost predicate UniqueRows(fts: seq<FtsRow>) {
    forall i, j :: 0 <= i < j < |fts| ==> (fts[i].session, fts[i].id) != (fts[j].session, fts[j].id)
  }

  /** The message stored under a key is the first one offered with it. */
  ghost predicate KeepsFirst(t: Tables, attempts: seq<Attempt>) {
    && (forall i :: 0 <= i < |t.messages| ==>
         var m := t.messages[i];
         var first := FirstFor(attempts, m.session, m.id);
         first.Some? && first.value.m == m)
    && (forall session, id :: FirstFor(attempts, session, id).Some? ==> HasKey(t.messages, session, id))
  }

  /** A key has a full-text row iff the first message offered with it had a body
      and its full-text insert worked; the row then holds that body. */
  ghost predicate IndexExact(t: Tables, attempts: seq<Attempt>) {
    && (forall i :: 0 <= i < |t.fts| ==> Indexed(attempts, t.fts[i]))
    && (forall row :: Indexed(attempts, row) ==> row in t.fts)
  }

  predicate Indexed(attempts: seq<Attempt>, row: FtsRow) {
    var first := FirstFor(attempts, row.session, row.id);
    first.Some? && first.value.ftsWorks && first.value.m.body == Some(row.body)
  }

  ghost predicate TablesOk(t: Tables, attempts: seq<Attempt>) {
    UniqueMessages(t.messages) && UniqueRows(t.fts) && KeepsFirst(t, attempts) && IndexExact(t, attempts)
  }

  lemma FirstOneMore(attempts: seq<Attempt>, a: Attempt, session: Session, id: MessageId)
    ensures FirstFor(attempts + [a], session, id) ==
      (if FirstFor(attempts, session, id).Some? then FirstFor(attempts, session, id)
       else if SameKey(a.m, session, id) then Some(a) else None)
  {
    assert (attempts + [a])[..|attempts|] == attempts;
  }

  lemma InsertKeepsFirst(t: Tables, attempts: seq<Attempt>, a: Attempt)
    requires UniqueMessages(t.messages) && KeepsFirst(t, attempts)
    ensures UniqueMessages(Inserted(t, a).messages) && KeepsFirst(Inserted(t, a), attempts + [a])
    ensures FirstFor(attempts, a.m.session, a.m.id).Some? <==> HasKey(t.messages, a.m.session, a.m.id)
  {
    hide FirstFor;
    var t' := Inserted(t, a);
    if HasKey(t.messages, a.m.session, a.m.id) {
      var i :| 0 <= i < |t.messages| && SameKey(t.messages[i], a.m.session, a.m.id);
      assert FirstFor(attempts, a.m.session, a.m.id).Some?;
    }
    forall session, id
      ensures FirstFor(attempts + [a], session, id) ==
        (if FirstFor(attempts, session, id).Some? then FirstFor(attempts, session, id)
         else if SameKey(a.m, session, id) then Some(a) else None)
    {
      FirstOneMore(attempts, a, session, id);
    }
    forall session, id | FirstFor(attempts + [a], session, id).Some?
      ensures HasKey(t'.messages, session, id)
    {
      if FirstFor(attempts, session, id).Some? {
        var i :| 0 <= i < |t.messages| && SameKey(t.messages[i], session, id);
        assert t'.messages[i] == t.messages[i];
      } else if t'.messages != t.messages {
        assert SameKey(t'.messages[|t.messages|], session, id);
      }
    }
  }

  lemma InsertKeepsIndex(t: Tables, attempts: seq<Attempt>, a: Attempt)
    requires UniqueRows(t.fts) && IndexExact(t, attempts)
    requires FirstFor(attempts, a.m.session, a.m.id).Some? <==> HasKey(t.messages, a.m.session, a.m.id)
    ensures UniqueRows(Inserted(t, a).fts) && IndexExact(Inserted(t, a), attempts + [a])
  {
    hide FirstFor, HasKey;
    var t' := Inserted(t, a);
    forall row: FtsRow
      ensures Indexed(attempts + [a], row) <==>
        Indexed(attempts, row) || (t'.fts != t.fts && row == t'.fts[|t.fts|])
    {
      FirstOneMore(attempts, a, row.session, row.id);
    }
    forall i | 0 <= i < |t'.fts|
      ensures Indexed(attempts + [a], t'.fts[i])
    {
      if i < |t.fts| {
        assert t'.fts[i] == t.fts[i];
      }
    }
    forall row | Indexed(attempts + [a], row)
      ensures row in t'.fts
    {
      if Indexed(attempts, row) {
        assert row in t.fts;
      } else {
        assert t'.fts[|t.fts|] == row;
      }
    }
  }

  /** After any sequence of inserts with repeats: keys are unique, each holds its
      first message, and the full-text rows are exactly those of the first
      messages that had a body and whose full-text insert worked. */
  lemma {:induction false} InsertsKeepTables(attempts: seq<Attempt>)
    ensures TablesOk(TablesAfter(attempts), attempts)
  {
    if attempts != [] {
      var init, a := attempts[..|attempts| - 1], attempts[|attempts| - 1];
      assert init + [a] == attempts;
      InsertsKeepTables(init);
      InsertKeepsFirst(TablesAfter(init), init, a);
      InsertKeepsIndex(TablesAfter(init), init, a);
    }
  }

  // ---- The search join ----

  lemma {:induction false} WithKeyIsOne(messages: seq<Message>, k: nat)
    requires UniqueMessages(messages) && k < |messages|
    ensures WithKey(messages, messages[k].session, messages[k].id) == [messages[k]]
  {
    var n := |messages| - 1;
    if k == n {
      WithKeyNone(messages[..n], messages[k].session, messages[k].id);
    } else {
      WithKeyIsOne(messages[..n], k);
    }
  }

  lemma {:induction false} WithKeyNone(messages: seq<Message>, session: Session, id: MessageId)
    requires !HasKey(messages, session, id)
    ensures WithKey(messages, session, id) == []
  {
    if messages != [] {
      var n := |messages| - 1;
      assert SameKey(messages[n], session, id) ==> HasKey(messages, session, id);
      assert forall i :: 0 <= i < n ==> messages[..n][i] == messages[i];
      WithKeyNone(messages[..n], session, id);
    }
  }

  /** The message a full-text row points at. */
  ghost predicate PointsAt(row: FtsRow, m: Message) {
    m.session == row.session && m.id == row.id && m.body == Some(row.body)
  }

  ghost predicate PointsInto(row: FtsRow, messages: seq<Message>) {
    exists k :: 0 <= k < |messages| && PointsAt(row, messages[k])
  }

  predicate BodyMatches(m: Message, matches: FtsRow -> bool) {
    m.body.Some? && matches(FtsRow(m.body.value, m.session, m.id))
  }

  function Matching(fts: seq<FtsRow>, matches: FtsRow -> bool): seq<FtsRow> {
    if fts == [] then []
    else Matching(fts[..|fts| - 1], matches) + (if matches(fts[|fts| - 1]) then [fts[|fts| - 1]] else [])
  }

  lemma {:induction false} JoinIsOneToOne(fts: seq<FtsRow>, messages: seq<Message>, matches: FtsRow -> bool)
    requires UniqueMessages(messages)
    requires forall i :: 0 <= i < |fts| ==> PointsInto(fts[i], messages)
    ensures |Joined(fts, messages, matches)| == |Matching(fts, matches)|
    ensures forall i :: 0 <= i < |Matching(fts, matches)| ==>
      PointsAt(Matching(fts, matches)[i], Joined(fts, messages, matches)[i])
  {
    if fts != [] {
      var n := |fts| - 1;
      JoinIsOneToOne(fts[..n], messages, matches);
      var k :| 0 <= k < |messages| && PointsAt(fts[n], messages[k]);
      WithKeyIsOne(messages, k);
    }
  }

  lemma {:induction false} MatchingRows(fts: seq<FtsRow>, matches: FtsRow -> bool)
    requires UniqueRows(fts)
    ensures UniqueRows(Matching(fts, matches))
    ensures forall row :: row in Matching(fts, matches) <==> row in fts && matches(row)
  {
    if fts != [] {
      var n := |fts| - 1;
      MatchingRows(fts[..n], matches);
      assert fts == fts[..n] + [fts[n]];
      forall row | row in Matching(fts[..n], matches)
        ensures (row.session, row.id) != (fts[n].session, fts[n].id)
      {
        assert row in fts[..n];
      }
    }
  }

  /** Searching after any inserts returns each message at most once, with the
      body that matched, and finds exactly the first messages of their keys that
      had a body which matches and whose full-text insert worked. */
  lemma SearchFindsEachOnce(attempts: seq<Attempt>, matches: FtsRow -> bool)
    ensures var t := TablesAfter(attempts); var found := Joined(t.fts, t.messages, matches);
      && (forall i, j :: 0 <= i < j < |found| ==> !SameKey(found[i], found[j].session, found[j].id))
      && (forall i :: 0 <= i < |found| ==> found[i] in t.messages && BodyMatches(found[i], matches))
      && (forall row :: Indexed(attempts, row) && matches(row) ==>
           exists i :: 0 <= i < |found| && PointsAt(row, found[i]))
  {
    hide FirstFor, Joined, Matching;
    var t := TablesAfter(attempts);
    var found, rows := Joined(t.fts, t.messages, matches), Matching(t.fts, matches);
    InsertsKeepTables(attempts);
    RowsPoint(t, attempts);
    JoinIsOneToOne(t.fts, t.messages, matches);
    MatchingRows(t.fts, matches);
    JoinedAreStored(t.fts, t.messages, matches);
    forall i | 0 <= i < |found|
      ensures BodyMatches(found[i], matches)
    {
      assert PointsAt(rows[i], found[i]) && rows[i] in rows;
    }
    forall row | Indexed(attempts, row) && matches(row)
      ensures exists i :: 0 <= i < |found| && PointsAt(row, found[i])
    {
      assert row in rows;
      var i :| 0 <= i < |rows| && rows[i] == row;
      assert PointsAt(row, found[i]);
    }
    forall i, j | 0 <= i < j < |found|
      ensures !SameKey(found[i], found[j].session, found[j].id)
    {
      assert PointsAt(rows[i], found[i]) && PointsAt(rows[j], found[j]);
    }
  }

  lemma RowsPoint(t: Tables, attempts: seq<Attempt>)
    requires TablesOk(t, attempts)
    ensures forall i :: 0 <= i < |t.fts| ==> PointsInto(t.fts[i], t.messages)
  {
    hide FirstFor;
    forall i | 0 <= i < |t.fts|
      ensures PointsInto(t.fts[i], t.messages)
    {
      var row := t.fts[i];
      assert Indexed(attempts, row) && HasKey(t.messages, row.session, row.id);
      var k :| 0 <= k < |t.messages| && SameKey(t.messages[k], row.session, row.id);
      assert PointsAt(row, t.messages[k]);
    }
  }

  lemma {:induction false} JoinedAreStored(fts: seq<FtsRow>, messages: seq<Message>, matches: FtsRow -> bool)
    ensures forall m :: m in Joined(fts, messages, matches) ==> m in messages
  {
    if fts != [] {
      var n := |fts| - 1;
      JoinedAreStored(fts[..n], messages, matches);
      WithKeyStored(messages, fts[n].session, fts[n].id);
    }
  }

  lemma {:induction false} WithKeyStored(messages: seq<Message>, session: Session, id: MessageId)
    ensures forall m :: m in WithKey(messages, session, id) ==> m in messages
  {
    if messages != [] {
      WithKeyStored(messages[..|messages| - 1], session, id);
    }
  }

  /** A key whose first message failed its full-text insert has no full-text row
      ever after: offering the message again, with any body, is ignored. */
  lemma FailedIndexIsForever(before: seq<Attempt>, m: Message, more: seq<Attempt>)
    requires FirstFor(before, m.session, m.id).None?
    ensures forall row :: row in TablesAfter(before + [Attempt(m, false)] + more).fts ==>
      !(row.session == m.session && row.id == m.id)
  {
    hide FirstFor;
    var a := Attempt(m, false);
    var all := before + [a] + more;
    InsertsKeepTables(all);
    FirstOneMore(before, a, m.session, m.id);
    FirstStays(before + [a], more, m.session, m.id);
    forall row | row in TablesAfter(all).fts
      ensures !(row.session == m.session && row.id == m.id)
    {
      assert Indexed(all, row);
    }
  }

  lemma {:induction false} FirstStays(before: seq<Attempt>, more: seq<Attempt>, session: Session, id: MessageId)
    requires FirstFor(before, session, id).Some?
    ensures FirstFor(before + more, session, id) == FirstFor(before, session, id)
  {
    if more == [] {
      assert before + more == before;
    } else {
      var n := |more| - 1;
      FirstStays(before, more[..n], session, id);
      assert (before + more)[..|before| + n] == before + more[..n];
    }
  }
}
