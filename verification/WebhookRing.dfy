// The bounded per-session ring of dead-lettered webhook deliveries.
module WebhookRing {
  import opened Wrappers
  import opened WebhookCircuit

  type EntryId = nat
  type SessionId = nat

  /** The answer to one POST. */
  datatype PostReply = Status(code: nat) | TransportError(error: string)

  datatype Entry = Entry(
    id: EntryId, session: SessionId, url: Url, event: string, payload: string, secret: Option<string>,
    lastError: PostReply, attempts: nat, failedAt: int)

  /** `while len >= capacity { pop_front }` and then `push_back`. */
  function PushBack<T>(s: seq<T>, x: T, capacity: nat): (r: seq<T>)
    requires capacity > 0
    ensures |r| == Min(|s| + 1, capacity)
  {
    (if |s| >= capacity then s[|s| - capacity + 1..] else s) + [x]
  }

  /** The position of the first entry with that id. */
  function Find(ring: seq<Entry>, id: EntryId): (pos: Option<nat>)
    ensures pos.Some? ==>
      pos.value < |ring| && ring[pos.value].id == id && forall i :: 0 <= i < pos.value ==> ring[i].id != id
    ensures pos.None? ==> forall i :: 0 <= i < |ring| ==> ring[i].id != id
  {
    if ring == [] then None
    else if ring[0].id == id then Some(0)
    else
      match Find(ring[1..], id)
      case None =>
        assert forall i :: 0 < i < |ring| ==> ring[i] == ring[1..][i - 1];
        None
      case Some(pos) =>
        assert forall i :: 0 < i < |ring| ==> ring[i] == ring[1..][i - 1];
        Some(pos + 1)
  }

  function RemoveAt<T>(s: seq<T>, pos: nat): (r: seq<T>)
    requires pos < |s|
    ensures |r| == |s| - 1 && forall i :: 0 <= i < |r| ==> r[i] == (if i < pos then s[i] else s[i + 1])
  {
    s[..pos] + s[pos + 1..]
  }

  // ---- The ring against its history ----

  /** A push, or the removal of the entry pushed at position `pushedAt` of the history. */
  datatype RingEvent = Pushed(entry: Entry) | Took(pushedAt: nat)

  datatype RingOp = Push(entry: Entry) | Take(id: EntryId)

  /** A ring, with the history position each of its entries was pushed at. */
  datatype Ledger = Ledger(ring: seq<Entry>, at: seq<nat>, history: seq<RingEvent>)

  const EMPTY := Ledger([], [], [])

  function Pushing(l: Ledger, e: Entry, capacity: nat): Ledger
    requires capacity > 0
  {
    Ledger(PushBack(l.ring, e, capacity), PushBack(l.at, |l.history|, capacity), l.history + [Pushed(e)])
  }

  function Taking(l: Ledger, id: EntryId): Ledger
    requires |l.at| == |l.ring|
  {
    match Find(l.ring, id)
    case None => l
    case Some(pos) => Ledger(RemoveAt(l.ring, pos), RemoveAt(l.at, pos), l.history + [Took(l.at[pos])])
  }

  /** Positions pushed and not taken since, oldest first: no capacity, no eviction. */
  function Live(history: seq<RingEvent>): seq<nat> {
    if history == [] then []
    else
      var n := |history| - 1;
      match history[n]
      case Pushed(_) => Live(history[..n]) + [n]
      case Took(p) => Without(Live(history[..n]), p)
  }

  function Without(s: seq<nat>, p: nat): seq<nat> {
    if s == [] then [] else if s[0] == p then Without(s[1..], p) else [s[0]] + Without(s[1..], p)
  }

  /** How many pushes came after position `p`. */
  function PushesAfter(history: seq<RingEvent>, p: int): nat
  {
    if |history| == 0 || p >= |history| - 1 then 0
    else PushesAfter(history[..|history| - 1], p) + (if history[|history| - 1].Pushed? then 1 else 0)
  }

  function Takes(history: seq<RingEvent>): nat {
    if history == [] then 0
    else Takes(history[..|history| - 1]) + (if history[|history| - 1].Took? then 1 else 0)
  }

  predicate Increasing(s: seq<nat>, below: nat) {
    && (forall i, j :: 0 <= i < j < |s| ==> s[i] < s[j])
    && (forall i :: 0 <= i < |s| ==> s[i] < below)
  }

  predicate IsSuffix(s: seq<nat>, of: seq<nat>) {
    |s| <= |of| && of[|of| - |s|..] == s
  }

  /** Each entry of the ring is the one pushed at its position. */
  ghost predicate Placed(l: Ledger) {
    && |l.ring| == |l.at|
    && forall i :: 0 <= i < |l.at| ==> l.at[i] < |l.history| && l.history[l.at[i]] == Pushed(l.ring[i])
  }

  /** What the ring lost came before all it holds. */
  ghost predicate NewestSuffix(at: seq<nat>, history: seq<RingEvent>) {
    Increasing(Live(history), |history|) && IsSuffix(at, Live(history))
  }

  ghost predicate Spaced(at: seq<nat>, history: seq<RingEvent>) {
    forall i :: 0 <= i < |at| ==> PushesAfter(history, at[i]) >= |at| - 1 - i
  }

  /** An untaken push with fewer than `capacity` pushes after it has not been lost. */
  ghost predicate RecentKept(at: seq<nat>, history: seq<RingEvent>, capacity: nat) {
    forall p :: p in Live(history) && PushesAfter(history, p) < capacity ==> p in at
  }

  ghost predicate LedgerOk(l: Ledger, capacity: nat) {
    && |l.ring| == |l.at| <= capacity && Placed(l)
    && NewestSuffix(l.at, l.history) && Spaced(l.at, l.history) && RecentKept(l.at, l.history, capacity)
    && |l.at| + Takes(l.history) >= Min(capacity, PushesAfter(l.history, -1))
  }

  lemma {:induction false} PushKeepsLedger(l: Ledger, e: Entry, capacity: nat)
    requires capacity > 0 && LedgerOk(l, capacity)
    ensures LedgerOk(Pushing(l, e, capacity), capacity)
  {
    hide Placed, NewestSuffix, Spaced, RecentKept, Live, Pushing;
    var n, h' := |l.history|, l.history + [Pushed(e)];
    assert h'[..n] == l.history;
    PushKeepsPlaced(l, e, capacity);
    PushKeepsSuffix(l.at, l.history, e, capacity);
    PushKeepsSpaced(l.at, l.history, e, capacity);
    PushKeepsRecent(l.at, l.history, e, capacity);
    assert Pushing(l, e, capacity) == Ledger(PushBack(l.ring, e, capacity), PushBack(l.at, n, capacity), h') by {
      PushingIs(l, e, capacity);
    }
  }

  lemma PushingIs(l: Ledger, e: Entry, capacity: nat)
    requires capacity > 0
    ensures Pushing(l, e, capacity) ==
      Ledger(PushBack(l.ring, e, capacity), PushBack(l.at, |l.history|, capacity), l.history + [Pushed(e)])
  {
  }

  lemma PushKeepsPlaced(l: Ledger, e: Entry, capacity: nat)
    requires capacity > 0 && Placed(l)
    ensures var at := PushBack(l.at, |l.history|, capacity);
      Placed(Ledger(PushBack(l.ring, e, capacity), at, l.history + [Pushed(e)]))
  {
  }

  lemma PushKeepsSuffix(at: seq<nat>, history: seq<RingEvent>, e: Entry, capacity: nat)
    requires capacity > 0 && NewestSuffix(at, history)
    ensures NewestSuffix(PushBack(at, |history|, capacity), history + [Pushed(e)])
  {
    var h' := history + [Pushed(e)];
    assert h'[..|history|] == history;
    assert Live(h') == Live(history) + [|history|];
  }

  lemma PushKeepsSpaced(at: seq<nat>, history: seq<RingEvent>, e: Entry, capacity: nat)
    requires capacity > 0 && NewestSuffix(at, history) && Spaced(at, history)
    ensures Spaced(PushBack(at, |history|, capacity), history + [Pushed(e)])
  {
    var h' := history + [Pushed(e)];
    assert h'[..|history|] == history;
    forall p | p < |history|
      ensures PushesAfter(h', p) == PushesAfter(history, p) + 1
    {
    }
    var at' := PushBack(at, |history|, capacity);
    assert forall i :: 0 <= i < |at| ==> at[i] < |history| by {
      SuffixBelow(at, history);
    }
    forall i | 0 <= i < |at'|
      ensures PushesAfter(h', at'[i]) >= |at'| - 1 - i
    {
      if i < |at'| - 1 {
        assert at'[i] == at[|at| - (|at'| - 1) + i];
      }
    }
  }

  lemma PushKeepsRecent(at: seq<nat>, history: seq<RingEvent>, e: Entry, capacity: nat)
    requires capacity > 0 && |at| <= capacity && NewestSuffix(at, history) && Spaced(at, history)
    requires RecentKept(at, history, capacity)
    ensures RecentKept(PushBack(at, |history|, capacity), history + [Pushed(e)], capacity)
  {
    hide NewestSuffix;
    var n, h', at' := |history|, history + [Pushed(e)], PushBack(at, |history|, capacity);
    assert h'[..n] == history;
    assert Live(h') == Live(history) + [n];
    LiveBelow(at, history);
    forall p | p in Live(h') && PushesAfter(h', p) < capacity
      ensures p in at'
    {
      if p == n {
        assert at'[|at'| - 1] == n;
      } else {
        assert p in Live(history) && PushesAfter(h', p) == PushesAfter(history, p) + 1;
        var i :| 0 <= i < |at| && at[i] == p;
        assert at' == at[|at| - (|at'| - 1)..] + [n];
        assert at'[i - (|at| - (|at'| - 1))] == p;
      }
    }
  }

  lemma LiveBelow(at: seq<nat>, history: seq<RingEvent>)
    requires NewestSuffix(at, history)
    ensures forall p :: p in Live(history) ==> p < |history|
  {
  }

  lemma SuffixBelow(at: seq<nat>, history: seq<RingEvent>)
    requires NewestSuffix(at, history)
    ensures forall i :: 0 <= i < |at| ==> at[i] < |history|
  {
    var live := Live(history);
    forall i | 0 <= i < |at|
      ensures at[i] < |history|
    {
      assert at[i] == live[|live| - |at| + i];
    }
  }

  lemma {:induction false} TakeKeepsLedger(l: Ledger, id: EntryId, capacity: nat)
    requires LedgerOk(l, capacity)
    ensures LedgerOk(Taking(l, id), capacity)
  {
    hide NewestSuffix, Spaced, RecentKept, Live;
    var found := Find(l.ring, id);
    if found.Some? {
      var pos := found.value;
      var h' := l.history + [Took(l.at[pos])];
      assert h'[..|l.history|] == l.history;
      TakeKeepsSuffix(l.at, l.history, pos);
      TakeKeepsSpaced(l.at, l.history, pos);
      TakeKeepsRecent(l.at, l.history, pos, capacity);
    }
  }

  lemma TakeKeepsSuffix(at: seq<nat>, history: seq<RingEvent>, pos: nat)
    requires pos < |at| && NewestSuffix(at, history)
    ensures NewestSuffix(RemoveAt(at, pos), history + [Took(at[pos])])
  {
    hide Without, RemoveAt;
    var h', live := history + [Took(at[pos])], Live(history);
    var k := |live| - |at| + pos;
    assert h'[..|history|] == history;
    assert live[k] == at[pos];
    WithoutAt(live, k);
    SuffixLosesOne(at, live, pos);
    StaysIncreasing(live, k, |history|);
  }

  lemma StaysIncreasing(s: seq<nat>, k: nat, below: nat)
    requires k < |s| && Increasing(s, below)
    ensures Increasing(RemoveAt(s, k), below + 1)
  {
  }

  lemma SuffixLosesOne(at: seq<nat>, live: seq<nat>, pos: nat)
    requires IsSuffix(at, live) && pos < |at|
    ensures IsSuffix(RemoveAt(at, pos), RemoveAt(live, |live| - |at| + pos))
  {
  }

  lemma TakeKeepsSpaced(at: seq<nat>, history: seq<RingEvent>, pos: nat)
    requires pos < |at| && Spaced(at, history) && NewestSuffix(at, history)
    ensures Spaced(RemoveAt(at, pos), history + [Took(at[pos])])
  {
    var h', at' := history + [Took(at[pos])], RemoveAt(at, pos);
    assert h'[..|history|] == history;
    forall i | 0 <= i < |at'|
      ensures PushesAfter(h', at'[i]) >= |at'| - 1 - i
    {
      assert at'[i] == at[if i < pos then i else i + 1];
    }
  }

  lemma TakeKeepsRecent(at: seq<nat>, history: seq<RingEvent>, pos: nat, capacity: nat)
    requires pos < |at| && NewestSuffix(at, history) && RecentKept(at, history, capacity)
    ensures RecentKept(RemoveAt(at, pos), history + [Took(at[pos])], capacity)
  {
    hide NewestSuffix, Without;
    var h', at', live := history + [Took(at[pos])], RemoveAt(at, pos), Live(history);
    assert h'[..|history|] == history;
    LiveBelow(at, history);
    assert Live(h') == Without(live, at[pos]);
    WithoutMembers(live, at[pos]);
    forall p | p in Live(h') && PushesAfter(h', p) < capacity
      ensures p in at'
    {
      assert p in live && p != at[pos];
      assert PushesAfter(h', p) == PushesAfter(history, p);
      var j :| 0 <= j < |at| && at[j] == p;
      assert at'[if j < pos then j else j - 1] == p;
    }
  }

  lemma {:induction false} WithoutMembers(s: seq<nat>, p: nat)
    ensures forall x :: x in Without(s, p) <==> x in s && x != p
  {
    if s != [] {
      WithoutMembers(s[1..], p);
      assert s == [s[0]] + s[1..];
    }
  }

  lemma {:induction false} WithoutAt(s: seq<nat>, k: nat)
    requires k < |s| && forall i, j :: 0 <= i < j < |s| ==> s[i] < s[j]
    ensures Without(s, s[k]) == RemoveAt(s, k)
  {
    if k == 0 {
      WithoutAbsent(s[1..], s[0]);
    } else {
      WithoutAt(s[1..], k - 1);
      assert RemoveAt(s, k) == [s[0]] + RemoveAt(s[1..], k - 1);
    }
  }

  lemma {:induction false} WithoutAbsent(s: seq<nat>, p: nat)
    requires p !in s
    ensures Without(s, p) == s
  {
    if s != [] {
      WithoutAbsent(s[1..], p);
    }
  }

  function LedgerAfter(ops: seq<RingOp>, capacity: nat): (l: Ledger)
    requires capacity > 0
    ensures |l.at| == |l.ring|
  {
    if ops == [] then EMPTY
    else
      var l := LedgerAfter(ops[..|ops| - 1], capacity);
      match ops[|ops| - 1]
      case Push(e) => Pushing(l, e, capacity)
      case Take(id) => Taking(l, id)
  }

  /** After any pushes and takes the ring is within capacity and is the newest
      suffix of the pushes minus the taken ones. */
  lemma {:induction false} RingIsNewestSuffix(ops: seq<RingOp>, capacity: nat)
    requires capacity > 0
    ensures LedgerOk(LedgerAfter(ops, capacity), capacity)
  {
    if ops != [] {
      var before, op := ops[..|ops| - 1], ops[|ops| - 1];
      RingIsNewestSuffix(before, capacity);
      if op.Push? {
        PushKeepsLedger(LedgerAfter(before, capacity), op.entry, capacity);
      } else {
        TakeKeepsLedger(LedgerAfter(before, capacity), op.id, capacity);
      }
    }
  }

  // ---- Replay refused by an open circuit: take, then push back ----

  function PushAll(ring: seq<Entry>, es: seq<Entry>, capacity: nat): (r: seq<Entry>)
    requires capacity > 0
    ensures |r| <= Min(|ring| + |es|, if es == [] then |ring| else capacity)
  {
    if es == [] then ring else PushBack(PushAll(ring, es[..|es| - 1], capacity), es[|es| - 1], capacity)
  }

  lemma {:induction false} PushAllFits(ring: seq<Entry>, es: seq<Entry>, capacity: nat)
    requires capacity > 0 && |ring| + |es| <= capacity
    ensures PushAll(ring, es, capacity) == ring + es
  {
    hide PushBack;
    if es == [] {
      assert ring + es == ring;
    } else {
      var n := |es| - 1;
      PushAllFits(ring, es[..n], capacity);
      PushFits(ring + es[..n], es[n], capacity);
      assert es == es[..n] + [es[n]];
    }
  }

  lemma PushFits<T>(s: seq<T>, x: T, capacity: nat)
    requires |s| < capacity
    ensures PushBack(s, x, capacity) == s + [x]
  {
  }

  /** Nothing is lost between the take and the push back iff the pushes that came
      in between still fit; with no push in between, nothing ever is. */
  lemma RefusedReplayKeepsEntries(ring: seq<Entry>, id: EntryId, between: seq<Entry>, capacity: nat)
    requires capacity > 0 && |ring| <= capacity && Find(ring, id).Some?
    ensures var pos := Find(ring, id).value;
      var after := PushBack(PushAll(RemoveAt(ring, pos), between, capacity), ring[pos], capacity);
      multiset(after) == multiset(ring) + multiset(between) <==> |ring| + |between| <= capacity
  {
    var pos := Find(ring, id).value;
    var e, rest := ring[pos], RemoveAt(ring, pos);
    var pushed := PushAll(rest, between, capacity);
    RemoveThenAdd(ring, pos);
    if |ring| + |between| <= capacity {
      PushAllFits(rest, between, capacity);
      assert PushBack(pushed, e, capacity) == rest + between + [e];
      assert multiset(rest + between + [e]) == multiset(rest) + multiset(between) + multiset{e};
    } else {
      var after := PushBack(pushed, e, capacity);
      assert |multiset(after)| == |after| <= capacity;
      assert |multiset(ring) + multiset(between)| == |ring| + |between|;
    }
  }

  lemma RemoveThenAdd<T>(s: seq<T>, pos: nat)
    requires pos < |s|
    ensures multiset(RemoveAt(s, pos)) + multiset{s[pos]} == multiset(s)
  {
    assert s == s[..pos] + [s[pos]] + s[pos + 1..];
  }
}
