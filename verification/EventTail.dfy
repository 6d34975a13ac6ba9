// The event ring and the polling tail over it.
module EventTail {
  import opened Wrappers

  const RING_CAPACITY: nat := 200
  const BACKLOG: nat := 50
  const PREVIEW_MAX: nat := 160

  type SessionId = nat
  type EventName = nat

  datatype Event = Event(session: SessionId, kind: EventName, preview: string, at: int)

  datatype Filter = Filter(session: Option<SessionId>, kind: Option<EventName>)

  predicate Matches(e: Event, f: Filter) {
    && (f.session.Some? ==> e.session == f.session.value)
    && (f.kind.Some? ==> e.kind == f.kind.value)
  }

  // ---- The ring ----

  /** The last `limit` of everything pushed, or all of it. */
  function Newest<T>(history: seq<T>, limit: nat): seq<T> {
    history[From(|history|, limit)..]
  }

  function From(n: nat, limit: nat): (from: nat)
    ensures from <= n
  {
    if n <= limit then 0 else n - limit
  }

  function Reverse<T>(s: seq<T>): (r: seq<T>)
    ensures |r| == |s| && forall i :: 0 <= i < |s| ==> r[i] == s[|s| - 1 - i]
  {
    if s == [] then [] else [s[|s| - 1]] + Reverse(s[..|s| - 1])
  }

  class EventRing {
    var ring: seq<Event>
    ghost var history: seq<Event>

    /** The ring is the newest 200 of everything ever pushed. */
    ghost predicate Valid()
      reads this
    {
      ring == Newest(history, RING_CAPACITY)
    }

    constructor ()
      ensures Valid() && history == []
    {
      ring, history := [], [];
    }

    /** `push_event`: the preview is the first 160 characters of the payload. */
    method PushEvent(session: SessionId, kind: EventName, payload: string, now: int)
      requires Valid()
      modifies this
      ensures Valid() && exists preview: string ::
        preview <= payload && (|preview| == PREVIEW_MAX || preview == payload) && |preview| <= PREVIEW_MAX
        && history == old(history) + [Event(session, kind, preview, now)]
    {
      var preview := if |payload| <= PREVIEW_MAX then payload else payload[..PREVIEW_MAX];
      var e := Event(session, kind, preview, now);
      if |ring| >= RING_CAPACITY {
        ring := ring[1..];
      }
      ring := ring + [e];
      history := history + [e];
      assert preview <= payload;
    }

    /** `recent_events`: at most `limit` of what the ring holds, newest first. */
    method RecentEvents(limit: nat) returns (recent: seq<Event>)
      requires Valid() && limit <= RING_CAPACITY
      ensures recent == Reverse(Newest(history, limit))
    {
      recent := [];
      var i := |ring|;
      while i > 0 && |recent| < limit
        invariant 0 <= i <= |ring| && |recent| == |ring| - i <= limit
        invariant forall k :: 0 <= k < |recent| ==> recent[k] == ring[|ring| - 1 - k]
      {
        i := i - 1;
        recent := recent + [ring[i]];
      }
      assert |recent| == |Newest(history, limit)|;
    }
  }

  // ---- A subscription, by positions in the push history ----

  /** The positions in `lo..hi` of matching events later than `last`, in order. */
  function Fresh(h: seq<Event>, lo: nat, hi: nat, last: Option<int>, f: Filter): (ps: seq<nat>)
    requires lo <= hi <= |h|
    ensures forall i :: 0 <= i < |ps| ==> lo <= ps[i] < hi && IsFresh(h[ps[i]], last, f)
    ensures forall i, j :: 0 <= i < j < |ps| ==> ps[i] < ps[j]
    ensures forall p :: lo <= p < hi && IsFresh(h[p], last, f) ==> p in ps
  {
    if lo == hi then [] else Fresh(h, lo, hi - 1, last, f) + (if IsFresh(h[hi - 1], last, f) then [hi - 1] else [])
  }

  /** No bound on the backlog, and later than the cursor on a poll. */
  predicate IsFresh(e: Event, last: Option<int>, f: Filter) {
    (last.Some? ==> e.at > last.value) && Matches(e, f)
  }

  function Pick(h: seq<Event>, ps: seq<nat>): (es: seq<Event>)
    requires forall i :: 0 <= i < |ps| ==> ps[i] < |h|
    ensures |es| == |ps| && forall i :: 0 <= i < |ps| ==> es[i] == h[ps[i]]
  {
    seq(|ps|, i requires 0 <= i < |ps| => h[ps[i]])
  }

  lemma NoneYet(h: seq<Event>, lo: nat, last: Option<int>, f: Filter)
    requires lo <= |h|
    ensures Pick(h, Fresh(h, lo, lo, last, f)) == []
  {
  }

  lemma OneMore(h: seq<Event>, lo: nat, hi: nat, last: Option<int>, f: Filter)
    requires lo <= hi < |h|
    ensures Pick(h, Fresh(h, lo, hi + 1, last, f)) ==
      Pick(h, Fresh(h, lo, hi, last, f)) + (if IsFresh(h[hi], last, f) then [h[hi]] else [])
  {
  }

  /** A look at `ring` sends exactly the events later than the cursor that have the
      session and the kind asked for, where one is asked for. */
  ghost predicate SendsExactly(sent: seq<Event>, ring: seq<Event>, last: Option<int>, session: Option<SessionId>,
                               kind: Option<EventName>) {
    forall e: Event ::
      e in sent <==>
        e in ring && (last == None || e.at > last.value)
        && (session == None || session == Some(e.session)) && (kind == None || kind == Some(e.kind))
  }

  lemma OneMoreSent(sent: seq<Event>, ring: seq<Event>, e: Event, last: Option<int>, f: Filter)
    requires SendsExactly(sent, ring, last, f.session, f.kind)
    ensures SendsExactly(sent + (if IsFresh(e, last, f) then [e] else []), ring + [e], last, f.session, f.kind)
  {
    assert forall o :: o in ring + [e] <==> o in ring || o == e;
  }

  lemma {:induction false} SentExactly(h: seq<Event>, lo: nat, hi: nat, last: Option<int>, f: Filter)
    requires lo <= hi <= |h|
    ensures SendsExactly(Pick(h, Fresh(h, lo, hi, last, f)), h[lo..hi], last, f.session, f.kind)
    decreases hi - lo
  {
    hide Fresh, Pick, SendsExactly, IsFresh;
    if lo == hi {
      NoneYet(h, lo, last, f);
      NothingSent(last, f);
      assert h[lo..hi] == [];
    } else {
      SentExactly(h, lo, hi - 1, last, f);
      OneMore(h, lo, hi - 1, last, f);
      OneMoreSent(Pick(h, Fresh(h, lo, hi - 1, last, f)), h[lo..hi - 1], h[hi - 1], last, f);
      assert h[lo..hi] == h[lo..hi - 1] + [h[hi - 1]];
    }
  }

  lemma NothingSent(last: Option<int>, f: Filter)
    ensures SendsExactly([], [], last, f.session, f.kind)
  {
  }

  class Tail {
    var filter: Filter
    var lastAt: int

    constructor (filter: Filter)
      ensures this.filter == filter && lastAt == 0
    {
      this.filter, lastAt := filter, 0;
    }

    /** Filters what was read newest first back into push order. */
    method Select(recent: seq<Event>, last: Option<int>, ghost h: seq<Event>, ghost lo: nat) returns (news: seq<Event>)
      requires lo <= |h| && recent == Reverse(h[lo..])
      ensures news == Pick(h, Fresh(h, lo, |h|, last, filter))
    {
      hide Fresh, Pick, Reverse, Matches, IsFresh;
      news := [];
      var i := |recent|;
      ghost var hi := lo;
      NoneYet(h, lo, last, filter);
      while i > 0
        invariant 0 <= i <= |recent| && hi == |h| - i
        invariant news == Pick(h, Fresh(h, lo, hi, last, filter))
      {
        i := i - 1;
        assert recent[i] == h[lo..][hi - lo] == h[hi];
        OneMore(h, lo, hi, last, filter);
        if IsFresh(recent[i], last, filter) {
          news := news + [recent[i]];
        }
        hi := hi + 1;
      }
    }

    /** The backlog on connect; the cursor is its last timestamp, or 0. */
    method Connect(events: EventRing) returns (backlog: seq<Event>)
      requires events.Valid()
      modifies this`lastAt
      ensures var h := events.history; var ps := Fresh(h, From(|h|, BACKLOG), |h|, None, filter);
        backlog == Pick(h, ps) && lastAt == CursorAfter(h, ps, 0)
      ensures SendsExactly(backlog, Newest(events.history, 50), None, filter.session, filter.kind)
      ensures lastAt == if backlog == [] then 0 else backlog[|backlog| - 1].at
    {
      hide Fresh, Pick, Reverse, SendsExactly;
      ghost var n := |events.history|;
      assert events.history[From(n, BACKLOG)..n] == Newest(events.history, BACKLOG);
      SentExactly(events.history, From(n, BACKLOG), n, None, filter);
      var recent := events.RecentEvents(BACKLOG);
      backlog := Select(recent, None, events.history, From(|events.history|, BACKLOG));
      lastAt := if backlog != [] then backlog[|backlog| - 1].at else 0;
    }

    /** One poll of the ring. */
    method Poll(events: EventRing) returns (news: seq<Event>)
      requires events.Valid()
      modifies this`lastAt
      ensures var h := events.history; var ps := Fresh(h, From(|h|, RING_CAPACITY), |h|, Some(old(lastAt)), filter);
        news == Pick(h, ps) && lastAt == CursorAfter(h, ps, old(lastAt))
      ensures SendsExactly(news, Newest(events.history, 200), Some(old(lastAt)), filter.session, filter.kind)
      ensures lastAt == if news == [] then old(lastAt) else news[|news| - 1].at
    {
      hide Fresh, Pick, Reverse, SendsExactly;
      ghost var n := |events.history|;
      assert events.history[From(n, RING_CAPACITY)..n] == Newest(events.history, RING_CAPACITY);
      SentExactly(events.history, From(n, RING_CAPACITY), n, Some(lastAt), filter);
      var recent := events.RecentEvents(RING_CAPACITY);
      news := Select(recent, Some(lastAt), events.history, From(|events.history|, RING_CAPACITY));
      if news != [] {
        lastAt := news[|news| - 1].at;
      }
    }
  }

  function CursorAfter(h: seq<Event>, ps: seq<nat>, last: int): int
    requires forall i :: 0 <= i < |ps| ==> ps[i] < |h|
  {
    if ps == [] then last else h[ps[|ps| - 1]].at
  }

  /** What a look finds does not depend on what is pushed after it, so the looks
      of `Stream` over one history are the calls of `Tail` at their times. */
  lemma {:induction false} LaterPushesDoNotMatter(h: seq<Event>, n: nat, lo: nat, hi: nat, last: Option<int>, f: Filter)
    requires lo <= hi <= n <= |h|
    ensures Fresh(h[..n], lo, hi, last, f) == Fresh(h, lo, hi, last, f)
    decreases hi - lo
  {
    if lo < hi {
      LaterPushesDoNotMatter(h, n, lo, hi - 1, last, f);
    }
  }

  /** What a subscription has sent, as positions in the history, and its cursor. */
  datatype Sent = Sent(positions: seq<nat>, lastAt: int)

  ghost predicate Looks(h: seq<Event>, looks: seq<nat>) {
    && (forall i :: 0 <= i < |looks| ==> looks[i] <= |h|)
    && (forall i, j :: 0 <= i < j < |looks| ==> looks[i] <= looks[j])
  }

  /** A subscription that connected when `looks[0]` events had been pushed and
      polled when `looks[1]`, `looks[2]`, ... had. */
  ghost function Stream(h: seq<Event>, looks: seq<nat>, f: Filter): (s: Sent)
    requires looks != [] && Looks(h, looks)
    ensures forall i :: 0 <= i < |s.positions| ==> s.positions[i] < looks[|looks| - 1]
  {
    var n := looks[|looks| - 1];
    if |looks| == 1 then
      var ps := Fresh(h, From(n, BACKLOG), n, None, f);
      Sent(ps, CursorAfter(h, ps, 0))
    else
      var s := Stream(h, looks[..|looks| - 1], f);
      var ps := Fresh(h, From(n, RING_CAPACITY), n, Some(s.lastAt), f);
      Sent(s.positions + ps, CursorAfter(h, ps, s.lastAt))
  }

  ghost predicate InOrder(h: seq<Event>, ps: seq<nat>, f: Filter) {
    && (forall i :: 0 <= i < |ps| ==> ps[i] < |h| && Matches(h[ps[i]], f))
    && (forall i, j :: 0 <= i < j < |ps| ==> ps[i] < ps[j])
  }

  /** No matching event is earlier than a matching one of the ring it joins. */
  ghost predicate LocallyOrdered(h: seq<Event>, f: Filter) {
    forall p, q :: 0 <= p < q < |h| && q - p < RING_CAPACITY && Matches(h[p], f) && Matches(h[q], f) ==>
      h[p].at <= h[q].at
  }

  /** With such timestamps, the stream never repeats or reorders: the positions sent strictly increase. */
  lemma {:induction false} StreamInOrder(h: seq<Event>, looks: seq<nat>, f: Filter)
    requires looks != [] && Looks(h, looks) && LocallyOrdered(h, f)
    ensures InOrder(h, Stream(h, looks, f).positions, f)
    ensures Stream(h, looks, f).lastAt == CursorAfter(h, Stream(h, looks, f).positions, 0)
  {
    hide Fresh, LocallyOrdered;
    if |looks| > 1 {
      var init, n := looks[..|looks| - 1], looks[|looks| - 1];
      StreamInOrder(h, init, f);
      var before := Stream(h, init, f);
      SendMore(h, n, before.positions, Fresh(h, From(n, RING_CAPACITY), n, Some(before.lastAt), f), f);
    }
  }

  /** Events of the ring later than the last one sent follow it in the history. */
  lemma SendMore(h: seq<Event>, n: nat, sent: seq<nat>, ps: seq<nat>, f: Filter)
    requires LocallyOrdered(h, f) && InOrder(h, sent, f) && InOrder(h, ps, f)
    requires n <= |h| && forall i :: 0 <= i < |sent| ==> sent[i] < n
    requires forall i :: 0 <= i < |ps| ==> From(n, RING_CAPACITY) <= ps[i] && h[ps[i]].at > CursorAfter(h, sent, 0)
    ensures InOrder(h, sent + ps, f)
    ensures CursorAfter(h, sent + ps, 0) == CursorAfter(h, ps, CursorAfter(h, sent, 0))
  {
    hide Matches;
    if sent != [] {
      var q := sent[|sent| - 1];
      forall i | 0 <= i < |ps|
        ensures ps[i] > q
      {
        assert Matches(h[q], f) && Matches(h[ps[i]], f) && q - ps[i] < RING_CAPACITY;
      }
    }
  }

  /** A timestamp that goes back within the ring shows: connecting and polling
      right after it sends the later-stamped event again. */
  lemma ConnectAndPollRepeats(h: seq<Event>, f: Filter, p: nat, q: nat)
    requires p < q < |h| && q - p < RING_CAPACITY && Matches(h[p], f) && Matches(h[q], f) && h[p].at > h[q].at
    ensures Looks(h, [q + 1, q + 1]) && !InOrder(h, Stream(h, [q + 1, q + 1], f).positions, f)
  {
    hide Matches, Fresh, Stream, InOrder, Looks, IsFresh;
    var n := q + 1;
    TwoLooks(h, n, f);
    FirstEndsAt(h, q, f);
    AgainHolds(h, q, p, f);
    OutOfOrder(h, Fresh(h, From(n, BACKLOG), n, None, f),
               Fresh(h, From(n, RING_CAPACITY), n, Some(h[q].at), f), q, p, f);
  }

  /** Connecting right after a matching event sends it last. */
  lemma FirstEndsAt(h: seq<Event>, q: nat, f: Filter)
    requires q < |h| && Matches(h[q], f)
    ensures var ps := Fresh(h, From(q + 1, BACKLOG), q + 1, None, f);
      ps != [] && ps[|ps| - 1] == q && CursorAfter(h, ps, 0) == h[q].at
  {
    hide Matches, Fresh;
    LastIsFresh(h, From(q + 1, BACKLOG), q, None, f);
  }

  lemma AgainHolds(h: seq<Event>, q: nat, p: nat, f: Filter)
    requires p < q < |h| && q - p < RING_CAPACITY && Matches(h[p], f) && h[p].at > h[q].at
    ensures p in Fresh(h, From(q + 1, RING_CAPACITY), q + 1, Some(h[q].at), f)
  {
    hide Matches, Fresh;
  }

  lemma OutOfOrder(h: seq<Event>, first: seq<nat>, again: seq<nat>, q: nat, p: nat, f: Filter)
    requires first != [] && first[|first| - 1] == q && p in again && p <= q
    ensures !InOrder(h, first + again, f)
  {
    var i :| 0 <= i < |again| && again[i] == p;
    var s := first + again;
    assert s[|first| - 1] == q && s[|first| + i] == p;
  }

  /** Connecting and polling with no push in between. */
  lemma TwoLooks(h: seq<Event>, n: nat, f: Filter)
    requires n <= |h|
    ensures Looks(h, [n, n])
    ensures var first := Fresh(h, From(n, BACKLOG), n, None, f);
      Stream(h, [n, n], f).positions == first + Fresh(h, From(n, RING_CAPACITY), n, Some(CursorAfter(h, first, 0)), f)
  {
    hide Fresh, Matches;
    var looks := [n, n];
    assert looks[..1] == [n];
    assert Looks(h, looks) && Looks(h, [n]);
  }

  lemma LastIsFresh(h: seq<Event>, lo: nat, q: nat, last: Option<int>, f: Filter)
    requires lo <= q < |h| && IsFresh(h[q], last, f)
    ensures var ps := Fresh(h, lo, q + 1, last, f); ps != [] && ps[|ps| - 1] == q
  {
  }

  /** The tail never repeats or reorders, for any connection and any polls, if
      and only if no matching event is earlier than a matching one fewer than
      200 pushes before it. */
  lemma {:induction false} InOrderIff(h: seq<Event>, f: Filter)
    ensures (forall looks :: looks != [] && Looks(h, looks) ==> InOrder(h, Stream(h, looks, f).positions, f))
      <==> LocallyOrdered(h, f)
  {
    hide Stream, InOrder, Looks, Matches;
    if LocallyOrdered(h, f) {
      forall looks | looks != [] && Looks(h, looks)
        ensures InOrder(h, Stream(h, looks, f).positions, f)
      {
        StreamInOrder(h, looks, f);
      }
    } else {
      var p, q :|
        0 <= p < q < |h| && q - p < RING_CAPACITY && Matches(h[p], f) && Matches(h[q], f) && h[p].at > h[q].at;
      ConnectAndPollRepeats(h, f, p, q);
    }
  }

  /** An event pushed between two polls is sent, now or ever, iff it matches, is
      still among the newest 200 at the later of the two, and is later than the
      last one sent by the earlier. */
  lemma {:induction false} SentIff(h: seq<Event>, looks: seq<nat>, k: nat, f: Filter, p: nat)
    requires Looks(h, looks) && 0 < k < |looks| && looks[k - 1] <= p < looks[k]
    ensures p in Stream(h, looks, f).positions <==>
      Matches(h[p], f) && p >= From(looks[k], RING_CAPACITY) && h[p].at > Stream(h, looks[..k], f).lastAt
    decreases |looks|
  {
    var init, n := looks[..|looks| - 1], looks[|looks| - 1];
    var before := Stream(h, init, f);
    if k == |looks| - 1 {
      assert p !in before.positions;
    } else {
      SentIff(h, init, k, f, p);
      assert init[..k] == looks[..k];
      CursorGrows(h, init, k, f);
      if p in Fresh(h, From(n, RING_CAPACITY), n, Some(before.lastAt), f) {
        assert p >= From(looks[k], RING_CAPACITY);
      }
    }
  }

  /** A later cursor is no earlier than an earlier one. */
  lemma {:induction false} CursorGrows(h: seq<Event>, looks: seq<nat>, k: nat, f: Filter)
    requires Looks(h, looks) && 0 < k <= |looks|
    ensures Stream(h, looks[..k], f).lastAt <= Stream(h, looks, f).lastAt
    decreases |looks|
  {
    if k == |looks| {
      assert looks[..k] == looks;
    } else {
      var init := looks[..|looks| - 1];
      CursorGrows(h, init, k, f);
      assert init[..k] == looks[..k];
    }
  }

  lemma LooksPrefix(h: seq<Event>, looks: seq<nat>, k: nat)
    requires Looks(h, looks) && 0 < k < |looks|
    ensures Looks(h, looks[..k]) && looks[k] <= |h|
  {
  }

  /** Matching events have positive, strictly increasing timestamps. */
  ghost predicate MatchesIncrease(h: seq<Event>, f: Filter) {
    && (forall p, q :: 0 <= p < q < |h| && Matches(h[p], f) && Matches(h[q], f) ==> h[p].at < h[q].at)
    && (forall p :: 0 <= p < |h| && Matches(h[p], f) ==> h[p].at > 0)
  }

  /** Looks with at most a ring of pushes between them. */
  ghost predicate Frequent(h: seq<Event>, looks: seq<nat>) {
    && looks != [] && Looks(h, looks)
    && forall i :: 0 < i < |looks| ==> looks[i] - looks[i - 1] <= RING_CAPACITY
  }

  /** A matching event pushed between the connection and the last look. */
  ghost predicate Expected(h: seq<Event>, looks: seq<nat>, f: Filter, p: nat)
    requires looks != [] && Looks(h, looks)
  {
    looks[0] <= p < looks[|looks| - 1] && Matches(h[p], f)
  }

  /** With such timestamps and at most 200 pushes between looks, no matching
      event pushed after the connection is missed. */
  lemma {:induction false} NothingMissed(h: seq<Event>, looks: seq<nat>, f: Filter, p: nat)
    requires Frequent(h, looks) && MatchesIncrease(h, f)
    requires Expected(h, looks, f, p)
    ensures p in Stream(h, looks, f).positions
  {
    hide Stream, Fresh, Matches, Looks;
    var k := LookAfter(looks, p);
    var init := looks[..k];
    LooksPrefix(h, looks, k);
    SentIff(h, looks, k, f, p);
    StreamInOrder(h, init, f);
    var s := Stream(h, init, f);
    assert looks[k] - looks[k - 1] <= RING_CAPACITY;
    if s.positions != [] {
      var q := s.positions[|s.positions| - 1];
      assert q < init[|init| - 1] == looks[k - 1] <= p;
      assert s.lastAt == h[q].at < h[p].at;
    } else {
      assert s.lastAt == 0 < h[p].at;
    }
  }

  /** A subscription that looks after every push from the `a`-th on. */
  function EveryPush(a: nat, b: nat): (looks: seq<nat>)
    requires a < b
    ensures |looks| == b - a + 1 && forall i :: 0 <= i < |looks| ==> looks[i] == a + i
  {
    seq(b - a + 1, i requires 0 <= i => a + i)
  }

  /** An event no later than what a subscription had seen when it connected is
      missed, however often it polls. */
  lemma StaleIsMissed(h: seq<Event>, f: Filter, a: nat, q: nat)
    requires a <= q < |h| && Stream(h, [a], f).lastAt >= h[q].at
    ensures Frequent(h, EveryPush(a, q + 1)) && q !in Stream(h, EveryPush(a, q + 1), f).positions
  {
    hide Stream, Fresh;
    var looks := EveryPush(a, q + 1);
    var k := |looks| - 1;
    var init := looks[..k];
    assert init[..1] == [a];
    CursorGrows(h, init, 1, f);
    SentIff(h, looks, k, f, q);
  }

  /** No matching event pushed after a connection is ever missed by polls at most
      200 pushes apart, if and only if the matching events have positive and
      strictly increasing timestamps. */
  lemma {:induction false} NothingMissedIff(h: seq<Event>, f: Filter)
    ensures (forall looks: seq<nat>, p: nat ::
               Frequent(h, looks) && Expected(h, looks, f, p) ==> p in Stream(h, looks, f).positions)
      <==> MatchesIncrease(h, f)
  {
    hide Stream, Matches, Fresh, Looks;
    if MatchesIncrease(h, f) {
      forall looks: seq<nat>, p: nat | Frequent(h, looks) && Expected(h, looks, f, p)
        ensures p in Stream(h, looks, f).positions
      {
        NothingMissed(h, looks, f, p);
      }
    } else if p :| 0 <= p < |h| && Matches(h[p], f) && h[p].at <= 0 {
      ConnectedAtStart(h, f);
      StaleIsMissed(h, f, 0, p);
    } else {
      var p, q :| 0 <= p < q < |h| && Matches(h[p], f) && Matches(h[q], f) && h[p].at >= h[q].at;
      ConnectedAfter(h, f, p);
      StaleIsMissed(h, f, p + 1, q);
    }
  }

  lemma ConnectedAtStart(h: seq<Event>, f: Filter)
    ensures Stream(h, [0], f).lastAt == 0
  {
  }

  lemma ConnectedAfter(h: seq<Event>, f: Filter, p: nat)
    requires p < |h| && Matches(h[p], f)
    ensures Stream(h, [p + 1], f).lastAt == h[p].at
  {
    LastIsFresh(h, From(p + 1, BACKLOG), p, None, f);
  }

  lemma {:induction false} LookAfter(looks: seq<nat>, p: nat) returns (k: nat)
    requires looks != [] && looks[0] <= p < looks[|looks| - 1]
    ensures 0 < k < |looks| && looks[k - 1] <= p < looks[k]
  {
    k := 1;
    while looks[k] <= p
      invariant 0 < k < |looks| && looks[k - 1] <= p
      decreases |looks| - k
    {
      k := k + 1;
    }
  }

  /** Two events of the same millisecond with a poll between them: the second is lost. */
  lemma SameMillisecondIsLost(e: Event, f: Filter)
    requires Matches(e, f) && e.at > 0
    ensures 1 !in Stream([e, e], [0, 1, 2], f).positions
  {
    hide Fresh, Matches, Stream;
    var h, looks := [e, e], [0, 1, 2];
    SentIff(h, looks, 2, f, 1);
    assert looks[..2] == [0, 1];
    FirstIsSent(e, f);
  }

  lemma FirstIsSent(e: Event, f: Filter)
    requires Matches(e, f) && e.at > 0
    ensures Stream([e, e], [0, 1], f).lastAt == e.at
  {
    hide Fresh, Matches;
    var h := [e, e];
    assert [0, 1][..1] == [0];
    FreshNone(h, 0, None, f);
    assert Stream(h, [0], f).lastAt == 0;
    FreshOne(h, 0, Some(0), f);
  }

  lemma FreshNone(h: seq<Event>, lo: nat, last: Option<int>, f: Filter)
    requires lo <= |h|
    ensures Fresh(h, lo, lo, last, f) == []
  {
  }

  lemma FreshOne(h: seq<Event>, lo: nat, last: Option<int>, f: Filter)
    requires lo < |h| && IsFresh(h[lo], last, f)
    ensures Fresh(h, lo, lo + 1, last, f) == [lo]
  {
    FreshNone(h, lo, last, f);
  }

  /** A timestamp that goes back makes the tail repeat itself. */
  lemma ClockBackRepeats(e: Event, f: Filter)
    requires Matches(e, f)
    ensures Stream([e, e.(at := e.at - 1)], [2, 2], f).positions == [0, 1, 0]
  {
    hide Fresh;
    var h, looks := [e, e.(at := e.at - 1)], [2, 2];
    var last := Some(e.at - 1);
    BothThenFirst(h, f);
    assert looks[..1] == [2];
    assert Stream(h, [2], f) == Sent([0, 1], e.at - 1);
    assert Stream(h, looks, f).positions == [0, 1] + [0];
  }

  lemma BothThenFirst(h: seq<Event>, f: Filter)
    requires |h| == 2 && Matches(h[0], f) && Matches(h[1], f) && h[1].at < h[0].at
    ensures Fresh(h, 0, 2, None, f) == [0, 1] && Fresh(h, 0, 2, Some(h[1].at), f) == [0]
  {
    hide Matches, Fresh;
    FreshOne(h, 0, None, f);
    FreshOne(h, 0, Some(h[1].at), f);
    FreshStep(h, 1, None, f);
    FreshStep(h, 1, Some(h[1].at), f);
  }

  lemma FreshStep(h: seq<Event>, hi: nat, last: Option<int>, f: Filter)
    requires hi < |h|
    ensures Fresh(h, 0, hi + 1, last, f) == Fresh(h, 0, hi, last, f) + (if IsFresh(h[hi], last, f) then [hi] else [])
  {
  }
}
