// The shared webhook state of the application, and the delivery and replay
// operations over it when nobody else steps in.
module WebhookHub {
  import opened Wrappers
  import opened WebhookCircuit
  import opened WebhookRing
  import opened WebhookRuns

  /** Every entry of a ring belongs to the session of the ring. */
  ghost predicate Filed(ring: seq<Entry>, session: SessionId) {
    forall i :: 0 <= i < |ring| ==> ring[i].session == session
  }

  function RingOf(rings: map<SessionId, seq<Entry>>, session: SessionId): seq<Entry> {
    if session in rings then rings[session] else []
  }

  ghost predicate RingsOk(rings: map<SessionId, seq<Entry>>, capacity: nat) {
    forall session :: session in rings ==> |rings[session]| <= capacity && Filed(rings[session], session)
  }

  lemma RingReplaced(rings: map<SessionId, seq<Entry>>, session: SessionId, ring: seq<Entry>, capacity: nat)
    requires RingsOk(rings, capacity) && |ring| <= capacity && Filed(ring, session)
    ensures RingsOk(rings[session := ring], capacity)
  {
  }

  lemma RingFiled(rings: map<SessionId, seq<Entry>>, session: SessionId, capacity: nat)
    requires RingsOk(rings, capacity)
    ensures session in rings ==> Filed(rings[session], session) && |rings[session]| <= capacity
  {
  }

  lemma FiledAt(ring: seq<Entry>, session: SessionId, id: EntryId)
    requires Filed(ring, session) && Find(ring, id).Some?
    ensures ring[Find(ring, id).value].session == session
  {
  }

  /** `while len >= capacity { pop_front }`. */
  method MakeRoom<T>(ring: seq<T>, capacity: nat) returns (rest: seq<T>)
    requires capacity > 0
    ensures |rest| == if |ring| < capacity then |ring| else capacity - 1
    ensures rest == ring[|ring| - |rest|..]
  {
    rest := ring;
    ghost var gone: nat := 0;
    while |rest| >= capacity
      invariant gone <= |ring| && rest == ring[gone..]
      invariant |rest| >= if |ring| < capacity then |ring| else capacity - 1
    {
      assert ring[gone..][1..] == ring[gone + 1..];
      rest := rest[1..];
      gone := gone + 1;
    }
  }

  /** Dropping entries from the front until there is room, then appending, is `PushBack`. */
  lemma PushIs(was: seq<Entry>, ring: seq<Entry>, e: Entry, capacity: nat)
    requires capacity > 0 && |ring| <= |was| && ring == was[|was| - |ring|..]
    requires |ring| == if |was| < capacity then |was| else capacity - 1
    ensures ring + [e] == PushBack(was, e, capacity)
    ensures (was == [] || Filed(was, e.session)) ==> Filed(ring + [e], e.session)
  {
  }

  class Hub {
    const cfg: Config
    var circuits: Circuits
    var rings: map<SessionId, seq<Entry>>

    ghost predicate Valid()
      reads this
    {
      cfg.capacity > 0 && RingsOk(rings, cfg.capacity)
    }

    constructor (cfg: Config)
      requires cfg.capacity > 0
      ensures Valid() && this.cfg == cfg && circuits == map[] && rings == map[]
    {
      this.cfg := cfg;
      circuits, rings := map[], map[];
    }

    method CircuitAllows(url: Url, now: Instant) returns (ok: bool)
      ensures ok <==> url !in RefusedUrls(circuits, now)
    {
      if url in circuits && circuits[url].openedUntil.Some? {
        ok := now >= circuits[url].openedUntil.value;
      } else {
        ok := true;
      }
    }

    /** Counts the open circuits: as many as there are URLs refused. */
    method OpenCount(now: Instant) returns (n: nat)
      ensures n == |RefusedUrls(circuits, now)|
    {
      n := 0;
      var todo := circuits.Keys;
      ghost var counted: set<Url> := {};
      while todo != {}
        invariant todo <= circuits.Keys
        invariant counted == (set u | u in circuits && u !in todo && Refuses(circuits[u], now)) && n == |counted|
        decreases |todo|
      {
        var u :| u in todo;
        todo := todo - {u};
        if Refuses(circuits[u], now) {
          n := n + 1;
          counted := counted + {u};
        }
      }
      assert counted == RefusedUrls(circuits, now);
    }

    method RecordSuccess(url: Url)
      modifies this`circuits
      ensures circuits == Apply(old(circuits), Succeeded(url))
    {
      if url in circuits {
        var c := circuits[url];
        c := c.(failures := 0);
        c := c.(openedUntil := None);
        circuits := circuits[url := c];
      }
    }

    method RecordFailure(url: Url, now: Instant) returns (action: FailureAction)
      modifies this`circuits
      ensures circuits == Apply(old(circuits), FailedAt(url, now))
      ensures action == Fail(CircuitOf(old(circuits), url), now).1
    {
      if url !in circuits {
        circuits := circuits[url := CLOSED];
      }
      var entry := circuits[url];
      entry := entry.(failures := SaturatingSucc(entry.failures));
      circuits := circuits[url := entry];
      if entry.failures >= HARD_DISABLE_THRESHOLD {
        return HardDisable;
      }
      if entry.failures >= OPEN_THRESHOLD && entry.openedUntil.None? {
        circuits := circuits[url := entry.(openedUntil := Some(now + COOLDOWN))];
        return Open;
      }
      return Noop;
    }

    method PurgeUrl(url: Url)
      modifies this`circuits
      ensures circuits == Apply(old(circuits), Purged(url))
    {
      circuits := circuits - {url};
    }

    /** Closes every open circuit: the URLs returned are exactly those that were
        refused, each once, and none is refused afterwards. */
    method ReenableAll(now: Instant) returns (reset: seq<Url>)
      modifies this`circuits
      ensures circuits == Apply(old(circuits), ReenabledAll(now)) && RefusedUrls(circuits, now) == {}
      ensures forall u :: u in reset <==> u in RefusedUrls(old(circuits), now)
      ensures forall i, j :: 0 <= i < j < |reset| ==> reset[i] != reset[j]
    {
      reset := [];
      var todo := circuits.Keys;
      while todo != {}
        invariant todo <= circuits.Keys == old(circuits).Keys
        invariant forall u :: u in circuits ==>
          circuits[u] == (if u !in todo && Refuses(old(circuits)[u], now) then CLOSED else old(circuits)[u])
        invariant forall u :: u in reset <==> u in circuits && u !in todo && Refuses(old(circuits)[u], now)
        invariant forall i, j :: 0 <= i < j < |reset| ==> reset[i] != reset[j]
        decreases |todo|
      {
        var u :| u in todo;
        todo := todo - {u};
        if Refuses(circuits[u], now) {
          circuits := circuits[u := Circuit(0, None)];
          reset := reset + [u];
        }
      }
    }

    /** Evicts from the front until there is room, then appends. */
    method DlqPush(e: Entry)
      requires Valid()
      modifies this`rings
      ensures Valid()
      ensures rings == old(rings)[e.session := PushBack(RingOf(old(rings), e.session), e, cfg.capacity)]
    {
      hide Filed, PushBack, RingsOk;
      var ring := RingOf(rings, e.session);
      var room := MakeRoom(ring, cfg.capacity);
      PushIs(ring, room, e, cfg.capacity);
      RingFiled(rings, e.session, cfg.capacity);
      RingReplaced(rings, e.session, room + [e], cfg.capacity);
      rings := rings[e.session := room + [e]];
    }

    /** Removes and returns the first entry with that id. */
    method DlqTake(session: SessionId, id: EntryId) returns (taken: Option<Entry>)
      requires Valid()
      modifies this`rings
      ensures Valid()
      ensures var ring := RingOf(old(rings), session);
        match Find(ring, id)
        case None => taken.None? && rings == old(rings)
        case Some(pos) => taken == Some(ring[pos]) && rings == old(rings)[session := RemoveAt(ring, pos)]
    {
      if session !in rings {
        return None;
      }
      var ring := rings[session];
      var pos := Find(ring, id);
      if pos.None? {
        return None;
      }
      taken := Some(ring[pos.value]);
      rings := rings[session := RemoveAt(ring, pos.value)];
    }
  }

  /** The hub holds the circuits and rings of the system state. */
  ghost predicate Mirrors(hub: Hub, s: System)
    reads hub
  {
    && hub.cfg == s.cfg && hub.circuits == s.circuits && hub.rings.Keys == s.ledgers.Keys
    && forall session :: session in s.ledgers ==> hub.rings[session] == s.ledgers[session].ring
  }

  lemma {:induction false} RunThen(s: System, run: seq<Action>, a: Action)
    requires s.cfg.capacity > 0 && IsRun(s, run) && After(s, run).cfg == s.cfg && Enabled(After(s, run), a)
    ensures IsRun(s, run + [a]) && After(s, run + [a]) == Next(After(s, run), a)
    ensures After(s, run + [a]).cfg == s.cfg
    decreases |run|
  {
    hide Enabled, Next;
    if run == [] {
      assert (run + [a])[1..] == [];
    } else {
      assert (run + [a])[1..] == run[1..] + [a];
      RunThen(Next(s, run[0]), run[1..], a);
    }
  }

  lemma Advance(s: System, run: seq<Action>, at: System, a: Action) returns (run': seq<Action>, at': System)
    requires s.cfg.capacity > 0 && IsRun(s, run) && After(s, run) == at && at.cfg == s.cfg && Enabled(at, a)
    ensures IsRun(s, run') && After(s, run') == at' && at' == Next(at, a) && at'.cfg == s.cfg
  {
    hide Enabled, Next;
    RunThen(s, run, a);
    run', at' := run + [a], Next(at, a);
  }

  predicate Accepts(reply: PostReply) {
    reply.Status? && 200 <= reply.code <= 299
  }

  /** An answer after which another attempt is made, if one is left. */
  predicate Again(reply: PostReply, retryOn4xx: bool) {
    match reply
    case TransportError(_) => true
    case Status(code) => code < 200 || 299 < code < 400 || 499 < code || code == 408 || code == 429
                         || (retryOn4xx && 399 < code)
  }

  /** `n` answers end the run: all before the last call for another attempt, and
      the last is a success, or calls for none, or uses up the attempts. */
  predicate EndsAfter(cfg: Config, replies: seq<PostReply>, n: nat) {
    var most := if cfg.maxAttempts == 0 then 1 else cfg.maxAttempts;
    && 1 <= n <= most && n <= |replies|
    && (forall i :: 0 <= i < n - 1 ==> Again(replies[i], cfg.retryOn4xx))
    && (n == most || !Again(replies[n - 1], cfg.retryOn4xx))
  }

  /** What a success makes of a circuit: no failures, not opened. */
  predicate CircuitClosed(was: Circuits, circuits: Circuits, url: Url) {
    circuits == if url in was then was[url := Circuit(0, None)] else was
  }

  /** What one failed run makes of a circuit: hard-disabled from the 100th failure in
      a row, opened for five minutes at the 25th, else one failure more. */
  predicate CountedAgainst(was: Circuits, circuits: Circuits, url: Url, now: Instant) {
    var failures := (if url in was then was[url].failures else 0) + 1;
    var open := if url in was then was[url].openedUntil else None;
    && circuits - {url} == was - {url}
    && (url in circuits <==> failures < 100)
    && (url in circuits ==>
         circuits[url] == Circuit(failures, if failures >= 25 && open == None then Some(now + 300_000) else open))
  }

  /** One delivery run over what the target answers, attempt by attempt: it posts
      until a success, an answer that is not retried, or the last attempt, and is
      delivered iff the last answer is a success. A success closes the circuit of
      the URL; a failure counts against it and parks the event with the last
      answer. It is a run of the system, and nothing else changes. */
  method Deliver(hub: Hub, t: TaskId, url: Url, task: Task, replies: seq<PostReply>, now: Instant, id: EntryId,
                 failedAt: int,
                 ghost s: System)
      returns (ok: bool, ghost posted: nat, ghost run: seq<Action>)
    requires hub.Valid() && Mirrors(hub, s) && t in s.tasks && s.tasks[t] == task
    requires task.stage.Posting? && task.replies == [] && task.url == url
    requires |replies| >= Attempts(hub.cfg)
    modifies hub
    ensures hub.Valid() && IsRun(s, run) && Mirrors(hub, After(s, run))
    ensures After(s, run).cfg == s.cfg && t in After(s, run).tasks
    ensures var stage := After(s, run).tasks[t].stage; if ok then stage.Delivered? else stage.DeadLettered?
    ensures EndsAfter(hub.cfg, replies, posted) && After(s, run).tasks[t].replies == replies[..posted]
    ensures ok <==> Accepts(replies[posted - 1])
    ensures ok <==> exists k ::
      0 <= k < (if hub.cfg.maxAttempts == 0 then 1 else hub.cfg.maxAttempts) && Accepts(replies[k])
      && forall i :: 0 <= i < k ==> Again(replies[i], hub.cfg.retryOn4xx)
    ensures ok ==> hub.rings == old(hub.rings) && CircuitClosed(old(hub.circuits), hub.circuits, url)
    ensures !ok ==>
      && CountedAgainst(old(hub.circuits), hub.circuits, url, now)
      && hub.rings == old(hub.rings)[task.session :=
           PushBack(RingOf(old(hub.rings), task.session),
                    Entry(id, task.session, url, task.event, task.payload, task.secret, replies[posted - 1],
                          if hub.cfg.maxAttempts == 0 then 1 else hub.cfg.maxAttempts, failedAt), hub.cfg.capacity)]
  {
    hide Enabled, Next, Again, CountedAgainst, RingsOk, PushBack, StageAfterPost, Apply, IsRun, After, CircuitClosed,
      IsSuccess, IsFinal, Accepts, Mirrors, EndsAfter;
    MirroredConfig(hub, s);
    EmptyRun(s);
    run := [];
    ghost var at := s;
    var attempt := 0;
    var maxAttempts := if hub.cfg.maxAttempts >= 1 then hub.cfg.maxAttempts else 1;
    var lastErr: Option<PostReply> := None;
    while attempt < maxAttempts
      invariant attempt <= maxAttempts && (lastErr.None? <==> attempt == 0)
      invariant IsRun(s, run) && After(s, run) == at && at.cfg == s.cfg && Mirrors(hub, at) && hub.Valid()
      invariant t in at.tasks && at.tasks[t] == task.(replies := replies[..attempt], stage := at.tasks[t].stage)
      invariant at.tasks[t].stage == if attempt < maxAttempts then Posting else Blaming
      invariant attempt > 0 ==> lastErr == Some(replies[attempt - 1]) && !Accepts(replies[attempt - 1])
      invariant forall i :: 0 <= i < attempt ==> Again(replies[i], hub.cfg.retryOn4xx)
      invariant hub.circuits == old(hub.circuits) && hub.rings == old(hub.rings)
    {
      var reply := replies[attempt];
      StageAfter(hub.cfg, replies, attempt + 1);
      ghost var before := at;
      run, at := PostOne(s, run, at, t, task, replies, attempt);
      SameMirrored(hub, before, at);
      attempt := attempt + 1;
      lastErr := Some(reply);
      if IsSuccess(reply) {
        run := CreditCircuit(hub, t, url, at.tasks[t], s, run, at);
        ok, posted := true, attempt;
        StopsHere(hub.cfg, replies, posted);
        OkIffSomeAccepted(hub.cfg, replies, posted);
        return;
      }
      if IsFinal(hub.cfg, reply) {
        break;
      }
    }
    ok, posted := false, attempt;
    StopsHere(hub.cfg, replies, posted);
    OkIffSomeAccepted(hub.cfg, replies, posted);
    var failed := task.(replies := replies[..attempt], stage := Blaming);
    run := GiveUp(hub, t, url, failed, lastErr.value, now, id, failedAt, s, run, at);
  }

  /** The successful end of a run. */
  method CreditCircuit(hub: Hub, t: TaskId, url: Url, ghost task: Task, ghost s: System, ghost run: seq<Action>,
                       ghost from: System)
      returns (ghost run': seq<Action>)
    requires hub.Valid() && hub.cfg == s.cfg && IsRun(s, run) && After(s, run) == from && from.cfg == s.cfg
    requires Mirrors(hub, from)
    requires At(from, t, Crediting) && from.tasks[t] == task && task.url == url
    modifies hub
    ensures hub.Valid() && IsRun(s, run') && Mirrors(hub, After(s, run'))
    ensures After(s, run').cfg == s.cfg && t in After(s, run').tasks && After(s, run').tasks[t].stage.Delivered?
    ensures After(s, run').tasks[t].replies == task.replies
    ensures hub.rings == old(hub.rings) && CircuitClosed(old(hub.circuits), hub.circuits, url)
  {
    hide Enabled, Next, Apply, IsRun, After, RingsOk;
    SuccessCloses(hub.circuits, url);
    CreditEffect(from, t);
    hub.RecordSuccess(url);
    ghost var at;
    run', at := Advance(s, run, from, Credit(t));
  }

  lemma SuccessCloses(circuits: Circuits, url: Url)
    ensures CircuitClosed(circuits, Apply(circuits, Succeeded(url)), url)
  {
  }

  lemma MirroredConfig(hub: Hub, s: System)
    requires Mirrors(hub, s)
    ensures hub.cfg == s.cfg
  {
  }

  lemma SameMirrored(hub: Hub, s: System, s': System)
    requires Mirrors(hub, s) && s'.cfg == s.cfg && s'.circuits == s.circuits && s'.ledgers == s.ledgers
    ensures Mirrors(hub, s')
  {
  }

  lemma StopsHere(cfg: Config, replies: seq<PostReply>, n: nat)
    requires 1 <= n <= Attempts(cfg) && n <= |replies|
    requires forall i :: 0 <= i < n - 1 ==> Again(replies[i], cfg.retryOn4xx)
    requires n == Attempts(cfg) || !Again(replies[n - 1], cfg.retryOn4xx)
    ensures EndsAfter(cfg, replies, n)
  {
  }

  /** One more post of a run. */
  lemma PostOne(s: System, run: seq<Action>, at: System, t: TaskId, task: Task, replies: seq<PostReply>,
                n: nat) returns (run': seq<Action>, at': System)
    requires s.cfg.capacity > 0 && IsRun(s, run) && After(s, run) == at && at.cfg == s.cfg
    requires n < |replies| && At(at, t, Posting)
    requires at.tasks[t] == task.(replies := replies[..n], stage := Posting)
    ensures IsRun(s, run') && After(s, run') == at' && at'.cfg == s.cfg
    ensures at'.circuits == at.circuits && at'.ledgers == at.ledgers && t in at'.tasks
    ensures at'.tasks[t] == task.(replies := replies[..n + 1], stage := StageAfterPost(s.cfg, replies[..n + 1]))
  {
    hide Enabled, Next, IsRun, After, StageAfterPost;
    PostEffect(at, t, replies[n]);
    run', at' := Advance(s, run, at, Post(t, replies[n]));
    assert replies[..n] + [replies[n]] == replies[..n + 1];
  }

  /** Where a post leaves the task, by the answer. */
  lemma StageAfter(cfg: Config, replies: seq<PostReply>, n: nat)
    requires 0 < n <= |replies|
    ensures StageAfterPost(cfg, replies[..n]) ==
      if Accepts(replies[n - 1]) then Crediting
      else if !Again(replies[n - 1], cfg.retryOn4xx) || n >= Attempts(cfg) then Blaming else Posting
    ensures IsSuccess(replies[n - 1]) <==> Accepts(replies[n - 1])
    ensures Again(replies[n - 1], cfg.retryOn4xx) <==> !IsSuccess(replies[n - 1]) && !IsFinal(cfg, replies[n - 1])
  {
  }

  lemma OkIffSomeAccepted(cfg: Config, replies: seq<PostReply>, n: nat)
    requires EndsAfter(cfg, replies, n) && |replies| >= Attempts(cfg)
    ensures Accepts(replies[n - 1]) <==> exists k ::
      0 <= k < (if cfg.maxAttempts == 0 then 1 else cfg.maxAttempts) && Accepts(replies[k])
      && forall i :: 0 <= i < k ==> Again(replies[i], cfg.retryOn4xx)
  {
    if !Accepts(replies[n - 1]) {
      forall k | 0 <= k < Attempts(cfg) && Accepts(replies[k])
        ensures exists i :: 0 <= i < k && !Again(replies[i], cfg.retryOn4xx)
      {
        if k < n - 1 {
          assert false;
        }
        assert !Again(replies[n - 1], cfg.retryOn4xx);
      }
    }
  }

  /** The breaker's two operations on a failed run count one failure. */
  lemma FailCounts(circuits: Circuits, url: Url, now: Instant)
    ensures var (_, action) := Fail(CircuitOf(circuits, url), now); var failed := Apply(circuits, FailedAt(url, now));
      CountedAgainst(circuits, if action.HardDisable? then Apply(failed, Purged(url)) else failed, url, now)
  {
  }

  /** The failing end of a run: blame the circuit, purge the URL on a hard
      disable, and park the event. */
  method GiveUp(hub: Hub, t: TaskId, url: Url, task: Task, err: PostReply, now: Instant, id: EntryId, failedAt: int,
                ghost s: System, ghost run: seq<Action>, ghost from: System)
      returns (ghost run': seq<Action>)
    requires hub.Valid() && hub.cfg == s.cfg && IsRun(s, run) && After(s, run) == from && from.cfg == s.cfg
    requires Mirrors(hub, from)
    requires t in from.tasks && from.tasks[t] == task && task.stage.Blaming? && task.url == url
    requires task.replies != [] && err == task.replies[|task.replies| - 1]
    modifies hub
    ensures hub.Valid() && IsRun(s, run') && Mirrors(hub, After(s, run'))
    ensures After(s, run').cfg == s.cfg && t in After(s, run').tasks && After(s, run').tasks[t].stage.DeadLettered?
    ensures After(s, run').tasks[t].replies == task.replies
    ensures CountedAgainst(old(hub.circuits), hub.circuits, url, now)
    ensures hub.rings == old(hub.rings)[task.session :=
      PushBack(RingOf(old(hub.rings), task.session),
               Entry(id, task.session, url, task.event, task.payload, task.secret, err,
                     if hub.cfg.maxAttempts == 0 then 1 else hub.cfg.maxAttempts, failedAt), hub.cfg.capacity)]
  {
    hide Enabled, Next, Fail, Apply, IsRun, After, RingsOk, PushBack, CountedAgainst;
    ghost var at;
    run', at := BlameCircuit(hub, t, url, task, now, s, run, from);
    ParkEffect(at, t, id, failedAt);
    hub.DlqPush(Entry(id, task.session, url, task.event, task.payload, task.secret, err, Attempts(hub.cfg), failedAt));
    run', at := Advance(s, run', at, Park(t, id, failedAt));
  }

  /** The breaker's part of it: one failure, and the purge on a hard disable. */
  method BlameCircuit(hub: Hub, t: TaskId, url: Url, task: Task, now: Instant,
                      ghost s: System, ghost run: seq<Action>, ghost from: System)
      returns (ghost run': seq<Action>, ghost at: System)
    requires hub.Valid() && hub.cfg == s.cfg && IsRun(s, run) && After(s, run) == from && from.cfg == s.cfg
    requires Mirrors(hub, from)
    requires t in from.tasks && from.tasks[t] == task && task.stage.Blaming? && task.url == url
    modifies hub
    ensures hub.Valid() && IsRun(s, run') && After(s, run') == at && at.cfg == s.cfg && Mirrors(hub, at)
    ensures t in at.tasks && at.tasks[t].stage.Parking? && at.tasks[t] == task.(stage := at.tasks[t].stage)
    ensures CountedAgainst(old(hub.circuits), hub.circuits, url, now) && hub.rings == old(hub.rings)
  {
    hide Enabled, Next, Fail, Apply, IsRun, After, RingsOk, CountedAgainst;
    FailCounts(hub.circuits, url, now);
    BlameEffect(from, t, now);
    var action := hub.RecordFailure(url, now);
    run', at := Advance(s, run, from, Blame(t, now));
    if action.HardDisable? {
      DisableEffect(at, t);
      hub.PurgeUrl(url);
      run', at := Advance(s, run', at, Disable(t));
    }
  }

  /** Replay of one dead-lettered entry: 404 when there is none; when the circuit
      is open the entry is pushed back and the ring holds what it held; else the
      entry is out of the ring and its task is ready to deliver it. */
  method ReplayEntry(hub: Hub, session: SessionId, id: EntryId, t: TaskId, now: Instant, ghost s: System)
      returns (reply: Reply<Entry>, ghost run: seq<Action>)
    requires hub.Valid() && Mirrors(hub, s) && t !in s.tasks
    requires forall k :: k in s.ledgers ==> |s.ledgers[k].at| == |s.ledgers[k].ring|
    modifies hub
    ensures hub.Valid() && IsRun(s, run) && Mirrors(hub, After(s, run)) && hub.circuits == old(hub.circuits)
    ensures var ring := RingOf(old(hub.rings), session);
      match reply
      case NotFound => Find(ring, id).None? && run == [] && hub.rings == old(hub.rings)
      case BadRequest =>
        && Find(ring, id).Some? && ring[Find(ring, id).value].url in RefusedUrls(hub.circuits, now)
        && session in hub.rings && multiset(hub.rings[session]) == multiset(ring)
        && hub.rings - {session} == old(hub.rings) - {session}
      case Ok(e) =>
        && Find(ring, id).Some? && e == ring[Find(ring, id).value] && e.url !in RefusedUrls(hub.circuits, now)
        && hub.rings == old(hub.rings)[session := RemoveAt(ring, Find(ring, id).value)]
        && t in After(s, run).tasks
        && After(s, run).tasks[t] == Task(e.session, e.url, e.event, e.payload, e.secret, Some(e), [], Posting)
  {
    hide Enabled, Next, IsRun, After, RemoveAt, Find, RefusedUrls, Filed, RingsOk, PushBack, Taking;
    ghost var at;
    var ring := RingOf(hub.rings, session);
    EmptyRun(s);
    RingFiled(hub.rings, session, hub.cfg.capacity);
    NoneFiled(session);
    var taken := hub.DlqTake(session, id);
    if taken.None? {
      return NotFound, [];
    }
    TakeEffect(s, t, session, id);
    run, at := Advance(s, [], s, TakeEntry(t, session, id));
    var allowed;
    allowed, run := TestTaken(hub, taken.value, t, now, s, run, at);
    if !allowed {
      FiledAt(ring, session, id);
      RefusedReplayKeepsEntries(ring, id, [], hub.cfg.capacity);
      return BadRequest, run;
    }
    reply := Ok(taken.value);
  }

  lemma EmptyRun(s: System)
    requires s.cfg.capacity > 0
    ensures IsRun(s, []) && After(s, []) == s
  {
  }

  lemma NoneFiled(session: SessionId)
    ensures Filed([], session)
  {
  }

  /** The circuit test of a taken entry: given back when it is open, else ready to post. */
  method TestTaken(hub: Hub, e: Entry, t: TaskId, now: Instant, ghost s: System, ghost run: seq<Action>,
                   ghost from: System)
      returns (allowed: bool, ghost run': seq<Action>)
    requires hub.Valid() && hub.cfg == s.cfg && IsRun(s, run) && After(s, run) == from && from.cfg == s.cfg
    requires Mirrors(hub, from)
    requires At(from, t, Checking) && from.tasks[t].taken == Some(e) && from.tasks[t].url == e.url
    modifies hub
    ensures hub.Valid() && IsRun(s, run') && Mirrors(hub, After(s, run')) && hub.circuits == old(hub.circuits)
    ensures allowed <==> e.url !in RefusedUrls(hub.circuits, now)
    ensures allowed ==> hub.rings == old(hub.rings) && t in After(s, run').tasks
    ensures allowed ==> After(s, run').tasks[t] == from.tasks[t].(stage := Posting)
    ensures !allowed ==>
      hub.rings == old(hub.rings)[e.session := PushBack(RingOf(old(hub.rings), e.session), e, hub.cfg.capacity)]
  {
    hide Enabled, Next, IsRun, After, RefusedUrls, RingsOk, PushBack;
    ghost var at;
    TestEffect(from, t, now);
    run', at := Advance(s, run, from, TestCircuit(t, now));
    allowed := hub.CircuitAllows(e.url, now);
    if !allowed {
      run' := GiveBack(hub, e, t, s, run', at);
    }
  }

  /** The refused end of a replay: the entry goes back as the newest. */
  method GiveBack(hub: Hub, e: Entry, t: TaskId, ghost s: System, ghost run: seq<Action>, ghost from: System)
      returns (ghost run': seq<Action>)
    requires hub.Valid() && hub.cfg == s.cfg && IsRun(s, run) && After(s, run) == from && from.cfg == s.cfg
    requires Mirrors(hub, from)
    requires At(from, t, Returning) && from.tasks[t].taken == Some(e)
    modifies hub
    ensures hub.Valid() && IsRun(s, run') && Mirrors(hub, After(s, run')) && hub.circuits == old(hub.circuits)
    ensures hub.rings == old(hub.rings)[e.session := PushBack(RingOf(old(hub.rings), e.session), e, hub.cfg.capacity)]
  {
    hide Enabled, Next, IsRun, After, PushBack, RingsOk;
    PutBackEffect(from, t);
    hub.DlqPush(e);
    ghost var at;
    run', at := Advance(s, run, from, PutBack(t));
  }

  lemma TakeEffect(s: System, t: TaskId, session: SessionId, id: EntryId)
    requires s.cfg.capacity > 0 && t !in s.tasks
    requires |LedgerOf(s, session).at| == |LedgerOf(s, session).ring| && Find(LedgerOf(s, session).ring, id).Some?
    ensures Enabled(s, TakeEntry(t, session, id))
    ensures var s' := Next(s, TakeEntry(t, session, id));
      var l := LedgerOf(s, session);
      var e := l.ring[Find(l.ring, id).value];
      && s'.circuits == s.circuits && s'.ledgers == s.ledgers[session := Taking(l, id)]
      && Taking(l, id).ring == RemoveAt(l.ring, Find(l.ring, id).value)
      && s'.tasks == s.tasks[t := Task(e.session, e.url, e.event, e.payload, e.secret, Some(e), [], Checking)]
  {
  }

  lemma TestEffect(s: System, t: TaskId, now: Instant)
    requires s.cfg.capacity > 0 && At(s, t, Checking) && s.tasks[t].taken.Some?
    ensures Enabled(s, TestCircuit(t, now))
    ensures var s' := Next(s, TestCircuit(t, now));
      var stage := if s.tasks[t].url in RefusedUrls(s.circuits, now) then Returning else Posting;
      && (s'.circuits, s'.ledgers) == (s.circuits, s.ledgers)
      && s'.tasks == s.tasks[t := s.tasks[t].(stage := stage)]
  {
  }

  lemma PutBackEffect(s: System, t: TaskId)
    requires s.cfg.capacity > 0 && At(s, t, Returning) && s.tasks[t].taken.Some?
    ensures Enabled(s, PutBack(t))
    ensures var s' := Next(s, PutBack(t)); var e := s.tasks[t].taken.value;
      && s'.circuits == s.circuits
      && s'.ledgers == s.ledgers[e.session := Pushing(LedgerOf(s, e.session), e, s.cfg.capacity)]
      && s'.tasks == s.tasks[t := s.tasks[t].(stage := Refused)]
  {
  }

  lemma PostEffect(s: System, t: TaskId, reply: PostReply)
    requires At(s, t, Posting) && s.cfg.capacity > 0
    ensures Enabled(s, Post(t, reply))
    ensures var s' := Next(s, Post(t, reply)); var replies := s.tasks[t].replies + [reply];
      && (s'.circuits, s'.ledgers) == (s.circuits, s.ledgers)
      && s'.tasks == s.tasks[t := s.tasks[t].(replies := replies, stage := StageAfterPost(s.cfg, replies))]
  {
  }

  lemma CreditEffect(s: System, t: TaskId)
    requires At(s, t, Crediting) && s.cfg.capacity > 0
    ensures Enabled(s, Credit(t))
    ensures var s' := Next(s, Credit(t));
      && s'.circuits == Apply(s.circuits, Succeeded(s.tasks[t].url)) && s'.ledgers == s.ledgers
      && s'.tasks == s.tasks[t := s.tasks[t].(stage := Delivered)]
  {
  }

  lemma BlameEffect(s: System, t: TaskId, now: Instant)
    requires At(s, t, Blaming) && s.cfg.capacity > 0
    ensures Enabled(s, Blame(t, now))
    ensures var s' := Next(s, Blame(t, now)); var action := Fail(CircuitOf(s.circuits, s.tasks[t].url), now).1;
      && s'.circuits == Apply(s.circuits, FailedAt(s.tasks[t].url, now)) && s'.ledgers == s.ledgers
      && s'.tasks == s.tasks[t := s.tasks[t].(stage := if action.HardDisable? then Disabling else Parking(action))]
  {
  }

  lemma DisableEffect(s: System, t: TaskId)
    requires At(s, t, Disabling) && s.cfg.capacity > 0
    ensures Enabled(s, Disable(t))
    ensures var s' := Next(s, Disable(t));
      && s'.circuits == Apply(s.circuits, Purged(s.tasks[t].url)) && s'.ledgers == s.ledgers
      && s'.tasks == s.tasks[t := s.tasks[t].(stage := Parking(HardDisable))]
  {
  }

  lemma ParkEffect(s: System, t: TaskId, id: EntryId, failedAt: int)
    requires t in s.tasks && s.tasks[t].stage.Parking? && s.tasks[t].replies != [] && s.cfg.capacity > 0
    ensures Enabled(s, Park(t, id, failedAt))
    ensures var s' := Next(s, Park(t, id, failedAt)); var e := EntryFor(s.cfg, s.tasks[t], id, failedAt);
      && s'.circuits == s.circuits
      && s'.ledgers == s.ledgers[e.session := Pushing(LedgerOf(s, e.session), e, s.cfg.capacity)]
      && s'.tasks == s.tasks[t := s.tasks[t].(stage := DeadLettered(s.tasks[t].stage.action, e))]
  {
  }
}
