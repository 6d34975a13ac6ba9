// Webhook delivery by any number of concurrent tasks over one breaker and the
// dead-letter rings: every await of a task is a point where others may step in.
module WebhookRuns {
  import opened Wrappers
  import opened WebhookCircuit
  import opened WebhookRing

  type TaskId = nat

  datatype Config = Config(maxAttempts: nat, retryOn4xx: bool, capacity: nat)

  /** Where a delivery run, or the replay request that leads to it, stands. */
  datatype Stage =
    | Checking                                            // replay: entry taken, circuit not tested yet
    | Returning                                           // replay: circuit open, entry to be pushed back
    | Posting
    | Crediting
    | Blaming
    | Disabling                                           // 100 failures: the URL is to be purged
    | Parking(action: FailureAction)
    | Refused
    | Delivered
    | DeadLettered(action: FailureAction, entry: Entry)

  datatype Task = Task(
    session: SessionId, url: Url, event: string, payload: string, secret: Option<string>,
    taken: Option<Entry>, replies: seq<PostReply>, stage: Stage)

  /** What a task did to the shared state or to the outside, in order. */
  datatype Deed =
    | TookEntry(entry: Entry)
    | GaveBack(entry: Entry)
    | Posted(reply: PostReply)
    | Credited
    | Blamed(action: FailureAction)
    | Disabled
    | Parked(entry: Entry)

  /** A deed of a task, or the removal of a session's ring. */
  datatype Mark = Mark(task: TaskId, deed: Deed) | Forgot(session: SessionId)

  datatype System = System(
    cfg: Config, ops: seq<CircuitOp>, circuits: Circuits, ledgers: map<SessionId, Ledger>,
    tasks: map<TaskId, Task>, log: seq<Mark>)

  datatype Action =
    | Broadcast(
        t: TaskId, session: SessionId, url: Url, event: string, payload: string, secret: Option<string>, now: Instant)
    | TakeEntry(t: TaskId, session: SessionId, id: EntryId)
    | TestCircuit(t: TaskId, now: Instant)
    | PutBack(t: TaskId)
    | Post(t: TaskId, reply: PostReply)
    | Credit(t: TaskId)
    | Blame(t: TaskId, now: Instant)
    | Disable(t: TaskId)
    | Park(t: TaskId, id: EntryId, failedAt: int)
    | ReenableAll(now: Instant)
    | ForgetSession(session: SessionId)

  predicate IsSuccess(reply: PostReply) {
    reply.Status? && 200 <= reply.code < 300
  }

  /** A client error that is not retried: not 408 or 429, and only with retries on 4xx off. */
  predicate IsFinal(cfg: Config, reply: PostReply) {
    !cfg.retryOn4xx && reply.Status? && 400 <= reply.code < 500 && reply.code != 408 && reply.code != 429
  }

  /** `max_attempts.max(1)`. */
  function Attempts(cfg: Config): nat {
    if cfg.maxAttempts >= 1 then cfg.maxAttempts else 1
  }

  function StageAfterPost(cfg: Config, replies: seq<PostReply>): Stage
    requires replies != []
  {
    var last := replies[|replies| - 1];
    if IsSuccess(last) then Crediting
    else if IsFinal(cfg, last) || |replies| >= Attempts(cfg) then Blaming
    else Posting
  }

  function LedgerOf(s: System, session: SessionId): Ledger {
    if session in s.ledgers then s.ledgers[session] else EMPTY
  }

  /** The entry a failed run parks: `attempts` is the configured maximum. */
  function EntryFor(cfg: Config, task: Task, id: EntryId, failedAt: int): Entry
    requires task.replies != []
  {
    Entry(id, task.session, task.url, task.event, task.payload, task.secret,
          task.replies[|task.replies| - 1], Attempts(cfg), failedAt)
  }

  predicate At(s: System, t: TaskId, stage: Stage) {
    t in s.tasks && s.tasks[t].stage == stage
  }

  ghost predicate Enabled(s: System, a: Action) {
    match a
    case Broadcast(t, _, _, _, _, _, _) => t !in s.tasks
    case TakeEntry(t, session, id) =>
      var l := LedgerOf(s, session);
      t !in s.tasks && |l.at| == |l.ring| && Find(l.ring, id).Some?
    case TestCircuit(t, _) => At(s, t, Checking) && s.tasks[t].taken.Some?
    case PutBack(t) => At(s, t, Returning) && s.tasks[t].taken.Some?
    case Post(t, _) => At(s, t, Posting)
    case Credit(t) => At(s, t, Crediting)
    case Blame(t, _) => At(s, t, Blaming)
    case Disable(t) => At(s, t, Disabling)
    case Park(t, _, _) => t in s.tasks && s.tasks[t].stage.Parking? && s.tasks[t].replies != []
    case ReenableAll(_) => true
    case ForgetSession(_) => true
  }

  /** Task `t` moves on, having done `deed`. */
  function Does(s: System, t: TaskId, task: Task, deed: Deed): System {
    s.(tasks := s.tasks[t := task], log := s.log + [Mark(t, deed)])
  }

  function Operate(s: System, op: CircuitOp): System {
    s.(ops := s.ops + [op], circuits := Apply(s.circuits, op))
  }

  ghost function Next(s: System, a: Action): (s': System)
    requires Enabled(s, a) && s.cfg.capacity > 0
    ensures s'.cfg == s.cfg
  {
    match a
    case Broadcast(t, session, url, event, payload, secret, now) =>
      if Refuses(CircuitOf(s.circuits, url), now) then s
      else s.(tasks := s.tasks[t := Task(session, url, event, payload, secret, None, [], Posting)])
    case TakeEntry(t, session, id) =>
      var l := LedgerOf(s, session);
      var e := l.ring[Find(l.ring, id).value];
      Does(s.(ledgers := s.ledgers[session := Taking(l, id)]), t,
           Task(e.session, e.url, e.event, e.payload, e.secret, Some(e), [], Checking), TookEntry(e))
    case TestCircuit(t, now) =>
      var stage := if Refuses(CircuitOf(s.circuits, s.tasks[t].url), now) then Returning else Posting;
      s.(tasks := s.tasks[t := s.tasks[t].(stage := stage)])
    case PutBack(t) =>
      var e := s.tasks[t].taken.value;
      Does(s.(ledgers := s.ledgers[e.session := Pushing(LedgerOf(s, e.session), e, s.cfg.capacity)]), t,
           s.tasks[t].(stage := Refused), GaveBack(e))
    case Post(t, reply) =>
      var replies := s.tasks[t].replies + [reply];
      Does(s, t, s.tasks[t].(replies := replies, stage := StageAfterPost(s.cfg, replies)), Posted(reply))
    case Credit(t) =>
      Does(Operate(s, Succeeded(s.tasks[t].url)), t, s.tasks[t].(stage := Delivered), Credited)
    case Blame(t, now) =>
      var url := s.tasks[t].url;
      var action := Fail(CircuitOf(s.circuits, url), now).1;
      Does(Operate(s, FailedAt(url, now)), t,
           s.tasks[t].(stage := if action.HardDisable? then Disabling else Parking(action)), Blamed(action))
    case Disable(t) =>
      Does(Operate(s, Purged(s.tasks[t].url)), t, s.tasks[t].(stage := Parking(HardDisable)), Disabled)
    case Park(t, id, failedAt) =>
      var task := s.tasks[t];
      var e := EntryFor(s.cfg, task, id, failedAt);
      Does(s.(ledgers := s.ledgers[e.session := Pushing(LedgerOf(s, e.session), e, s.cfg.capacity)]), t,
           task.(stage := DeadLettered(task.stage.action, e)), Parked(e))
    case ReenableAll(now) => Operate(s, ReenabledAll(now))
    case ForgetSession(session) => s.(ledgers := s.ledgers - {session}, log := s.log + [Forgot(session)])
  }

  function Start(cfg: Config): System {
    System(cfg, [], map[], map[], map[], [])
  }

  ghost predicate IsRun(s: System, run: seq<Action>)
    requires s.cfg.capacity > 0
    decreases |run|
  {
    run == [] || (Enabled(s, run[0]) && IsRun(Next(s, run[0]), run[1..]))
  }

  ghost function After(s: System, run: seq<Action>): System
    requires s.cfg.capacity > 0 && IsRun(s, run)
    decreases |run|
  {
    if run == [] then s else After(Next(s, run[0]), run[1..])
  }

  // ---- What every task has done, read off its stage ----

  /** The deeds of one task, oldest first. */
  function DeedsOf(log: seq<Mark>, t: TaskId): seq<Deed> {
    if log == [] then []
    else
      var n := |log| - 1;
      DeedsOf(log[..n], t) + (if log[n].Mark? && log[n].task == t then [log[n].deed] else [])
  }

  function Posts(replies: seq<PostReply>): (r: seq<Deed>)
    ensures |r| == |replies|
  {
    if replies == [] then [] else Posts(replies[..|replies| - 1]) + [Posted(replies[|replies| - 1])]
  }

  function BlameDeeds(action: FailureAction): seq<Deed> {
    if action.HardDisable? then [Blamed(action), Disabled] else [Blamed(action)]
  }

  /** The deeds a task at this stage must have done: no more, no less, in this order. */
  function DeedsExpected(task: Task): seq<Deed> {
    var began := if task.taken.Some? then [TookEntry(task.taken.value)] else [];
    match task.stage
    case Checking => began
    case Returning => began
    case Refused => began + (if task.taken.Some? then [GaveBack(task.taken.value)] else [])
    case Posting => began + Posts(task.replies)
    case Crediting => began + Posts(task.replies)
    case Blaming => began + Posts(task.replies)
    case Delivered => began + Posts(task.replies) + [Credited]
    case Disabling => began + Posts(task.replies) + [Blamed(HardDisable)]
    case Parking(action) => began + Posts(task.replies) + BlameDeeds(action)
    case DeadLettered(action, entry) => began + Posts(task.replies) + BlameDeeds(action) + [Parked(entry)]
  }

  /** All replies but the last called for another attempt. */
  predicate KeptTrying(cfg: Config, replies: seq<PostReply>) {
    && |replies| <= Attempts(cfg)
    && forall i :: 0 <= i < |replies| - 1 ==> !IsSuccess(replies[i]) && !IsFinal(cfg, replies[i])
  }

  predicate RepliesFit(cfg: Config, task: Task) {
    && KeptTrying(cfg, task.replies)
    && match task.stage
       case Checking => task.replies == [] && task.taken.Some?
       case Returning => task.replies == [] && task.taken.Some?
       case Refused => task.replies == [] && task.taken.Some?
       case Posting =>
         |task.replies| < Attempts(cfg) && (task.replies != [] ==> StageAfterPost(cfg, task.replies) == Posting)
       case Crediting => task.replies != [] && StageAfterPost(cfg, task.replies) == Crediting
       case Delivered => task.replies != [] && StageAfterPost(cfg, task.replies) == Crediting
       case Blaming => task.replies != [] && StageAfterPost(cfg, task.replies) == Blaming
       case Disabling => task.replies != [] && StageAfterPost(cfg, task.replies) == Blaming
       case Parking(_) => task.replies != [] && StageAfterPost(cfg, task.replies) == Blaming
       case DeadLettered(_, entry) =>
         && task.replies != [] && StageAfterPost(cfg, task.replies) == Blaming
         && entry == EntryFor(cfg, task, entry.id, entry.failedAt)
  }

  ghost predicate TasksInv(s: System) {
    && (forall t :: t in s.tasks ==> DeedsOf(s.log, t) == DeedsExpected(s.tasks[t]) && RepliesFit(s.cfg, s.tasks[t]))
    && (forall t :: t !in s.tasks ==> DeedsOf(s.log, t) == [])
  }

  lemma DeedsOfOneMore(log: seq<Mark>, m: Mark, t: TaskId)
    ensures DeedsOf(log + [m], t) == DeedsOf(log, t) + (if m.Mark? && m.task == t then [m.deed] else [])
  {
    assert (log + [m])[..|log|] == log;
  }

  /** A task that has done one more deed, and no other task, stays as expected. */
  lemma DoesKeepsTasks(s: System, s': System, t: TaskId, task: Task, deed: Deed)
    requires TasksInv(s) && s'.cfg == s.cfg && s'.tasks == s.tasks[t := task] && s'.log == s.log + [Mark(t, deed)]
    requires RepliesFit(s.cfg, task) && DeedsExpected(task) == DeedsOf(s.log, t) + [deed]
    ensures TasksInv(s')
  {
    hide DeedsExpected, RepliesFit, DeedsOf;
    forall u
      ensures DeedsOf(s'.log, u) == DeedsOf(s.log, u) + (if t == u then [deed] else [])
    {
      DeedsOfOneMore(s.log, Mark(t, deed), u);
    }
  }

  /** A post adds one reply and one deed. */
  lemma PostKeepsTasks(s: System, t: TaskId, reply: PostReply)
    requires TasksInv(s) && At(s, t, Posting) && s.cfg.capacity > 0
    ensures TasksInv(Next(s, Post(t, reply)))
  {
    hide DeedsExpected, RepliesFit, DeedsOf, Posts;
    var task := s.tasks[t];
    var replies := task.replies + [reply];
    var task' := task.(replies := replies, stage := StageAfterPost(s.cfg, replies));
    assert RepliesFit(s.cfg, task) && DeedsOf(s.log, t) == DeedsExpected(task);
    PostedDeeds(task, reply, task'.stage);
    PostedFits(s.cfg, task, reply);
    DoesKeepsTasks(s, Next(s, Post(t, reply)), t, task', Posted(reply));
  }

  lemma PostedDeeds(task: Task, reply: PostReply, stage: Stage)
    requires task.stage == Posting && (stage == Posting || stage == Crediting || stage == Blaming)
    ensures DeedsExpected(task.(replies := task.replies + [reply], stage := stage)) ==
      DeedsExpected(task) + [Posted(reply)]
  {
    var replies := task.replies + [reply];
    assert replies[..|task.replies|] == task.replies;
    var began := if task.taken.Some? then [TookEntry(task.taken.value)] else [];
    assert began + (Posts(task.replies) + [Posted(reply)]) == began + Posts(task.replies) + [Posted(reply)];
  }

  lemma PostedFits(cfg: Config, task: Task, reply: PostReply)
    requires task.stage == Posting && RepliesFit(cfg, task)
    ensures var replies := task.replies + [reply];
      RepliesFit(cfg, task.(replies := replies, stage := StageAfterPost(cfg, replies)))
  {
    var replies := task.replies + [reply];
    forall i | 0 <= i < |replies| - 1
      ensures !IsSuccess(replies[i]) && !IsFinal(cfg, replies[i])
    {
      assert replies[i] == task.replies[i];
    }
  }

  lemma CreditKeepsTasks(s: System, t: TaskId)
    requires TasksInv(s) && Enabled(s, Credit(t)) && s.cfg.capacity > 0
    ensures TasksInv(Next(s, Credit(t)))
  {
    hide DeedsOf, Posts, Apply;
    var s' := Next(s, Credit(t));
    DoesKeepsTasks(s, s', t, s'.tasks[t], Credited);
  }

  lemma BlameKeepsTasks(s: System, t: TaskId, now: Instant)
    requires TasksInv(s) && Enabled(s, Blame(t, now)) && s.cfg.capacity > 0
    ensures TasksInv(Next(s, Blame(t, now)))
  {
    hide DeedsOf, Posts, Apply, Fail;
    var s' := Next(s, Blame(t, now));
    DoesKeepsTasks(s, s', t, s'.tasks[t], Blamed(Fail(CircuitOf(s.circuits, s.tasks[t].url), now).1));
  }

  lemma DisableKeepsTasks(s: System, t: TaskId)
    requires TasksInv(s) && Enabled(s, Disable(t)) && s.cfg.capacity > 0
    ensures TasksInv(Next(s, Disable(t)))
  {
    hide DeedsOf, Posts, Apply;
    var s' := Next(s, Disable(t));
    DoesKeepsTasks(s, s', t, s'.tasks[t], Disabled);
  }

  lemma RingStepKeepsTasks(s: System, a: Action)
    requires TasksInv(s) && Enabled(s, a) && s.cfg.capacity > 0
    requires a.TakeEntry? || a.PutBack? || a.Park?
    ensures TasksInv(Next(s, a))
  {
    hide DeedsOf, Posts, Taking, Pushing;
    var s' := Next(s, a);
    match a
    case TakeEntry(t, session, id) => DoesKeepsTasks(s, s', t, s'.tasks[t], TookEntry(s'.tasks[t].taken.value));
    case PutBack(t) => DoesKeepsTasks(s, s', t, s'.tasks[t], GaveBack(s.tasks[t].taken.value));
    case Park(t, id, failedAt) =>
      DoesKeepsTasks(s, s', t, s'.tasks[t], Parked(EntryFor(s.cfg, s.tasks[t], id, failedAt)));
  }

  lemma StepKeepsTasks(s: System, a: Action)
    requires TasksInv(s) && Enabled(s, a) && s.cfg.capacity > 0
    ensures TasksInv(Next(s, a))
  {
    hide TasksInv, Enabled, Next;
    if a.Credit? {
      CreditKeepsTasks(s, a.t);
    } else if a.Blame? {
      BlameKeepsTasks(s, a.t, a.now);
    } else if a.Disable? {
      DisableKeepsTasks(s, a.t);
    } else if a.TakeEntry? || a.PutBack? || a.Park? {
      RingStepKeepsTasks(s, a);
    } else if a.Post? {
      PostingAt(s, a);
      PostKeepsTasks(s, a.t, a.reply);
    } else {
      QuietStepKeepsTasks(s, a);
    }
  }

  lemma PostingAt(s: System, a: Action)
    requires Enabled(s, a) && a.Post?
    ensures At(s, a.t, Posting)
  {
  }

  /** Steps that no task takes, or that leave no mark. */
  lemma QuietStepKeepsTasks(s: System, a: Action)
    requires TasksInv(s) && Enabled(s, a) && s.cfg.capacity > 0
    requires a.Broadcast? || a.TestCircuit? || a.ReenableAll? || a.ForgetSession?
    ensures TasksInv(Next(s, a))
  {
    hide DeedsOf, Apply;
    if a.ForgetSession? {
      forall t
        ensures DeedsOf(s.log + [Forgot(a.session)], t) == DeedsOf(s.log, t)
      {
        DeedsOfOneMore(s.log, Forgot(a.session), t);
      }
    }
  }

  // ---- The shared breaker and rings ----

  ghost predicate SharedInv(s: System) {
    && s.circuits == CircuitsAfter(s.ops)
    && forall session :: session in s.ledgers ==> LedgerOk(s.ledgers[session], s.cfg.capacity)
  }

  lemma OperateFollows(s: System, op: CircuitOp)
    requires s.circuits == CircuitsAfter(s.ops)
    ensures Operate(s, op).circuits == CircuitsAfter(Operate(s, op).ops)
  {
    assert (s.ops + [op])[..|s.ops|] == s.ops;
  }

  lemma StepKeepsShared(s: System, a: Action)
    requires SharedInv(s) && Enabled(s, a) && s.cfg.capacity > 0
    ensures SharedInv(Next(s, a))
  {
    hide LedgerOk, CircuitsAfter, Apply, Taking, Pushing, Fail;
    EmptyLedgerOk(s.cfg.capacity);
    match a
    case TakeEntry(_, session, id) => TakeKeepsLedger(LedgerOf(s, session), id, s.cfg.capacity);
    case PutBack(t) =>
      var e := s.tasks[t].taken.value;
      PushKeepsLedger(LedgerOf(s, e.session), e, s.cfg.capacity);
    case Park(t, id, failedAt) =>
      var e := EntryFor(s.cfg, s.tasks[t], id, failedAt);
      PushKeepsLedger(LedgerOf(s, e.session), e, s.cfg.capacity);
    case Credit(t) => OperateFollows(s, Succeeded(s.tasks[t].url));
    case Blame(t, now) => OperateFollows(s, FailedAt(s.tasks[t].url, now));
    case Disable(t) => OperateFollows(s, Purged(s.tasks[t].url));
    case ReenableAll(now) => OperateFollows(s, ReenabledAll(now));
    case _ =>
  }

  lemma EmptyLedgerOk(capacity: nat)
    ensures LedgerOk(EMPTY, capacity)
  {
    hide Placed, NewestSuffix, Spaced, RecentKept;
    assert PushesAfter([], -1) == 0 && Takes([]) == 0 && Live([]) == [];
    assert Placed(EMPTY) && Spaced([], []) && RecentKept([], [], capacity) && NewestSuffix([], []) by {
      EmptyLedgerParts(capacity);
    }
  }

  lemma EmptyLedgerParts(capacity: nat)
    ensures Placed(EMPTY) && Spaced([], []) && RecentKept([], [], capacity) && NewestSuffix([], [])
  {
    assert Live([]) == [];
  }

  // ---- What went into and out of a ring is what the tasks did ----

  datatype Move = In(came: Entry) | Out(went: Option<Entry>)

  /** A ring's history as entries that came and went. */
  function Moves(history: seq<RingEvent>): seq<Move> {
    if history == [] then []
    else
      var n := |history| - 1;
      Moves(history[..n]) + [MoveOf(history[..n], history[n])]
  }

  function MoveOf(before: seq<RingEvent>, e: RingEvent): Move {
    if e.Pushed? then In(e.entry)
    else if e.pushedAt < |before| && before[e.pushedAt].Pushed? then Out(Some(before[e.pushedAt].entry))
    else Out(None)
  }

  /** What the tasks put into and took out of the session's ring since it was last removed. */
  function MovesBy(log: seq<Mark>, session: SessionId): seq<Move> {
    if log == [] then []
    else
      var n := |log| - 1;
      var before := MovesBy(log[..n], session);
      match log[n]
      case Forgot(s) => if s == session then [] else before
      case Mark(_, Parked(e)) => before + (if e.session == session then [In(e)] else [])
      case Mark(_, GaveBack(e)) => before + (if e.session == session then [In(e)] else [])
      case Mark(_, TookEntry(e)) => before + (if e.session == session then [Out(Some(e))] else [])
      case _ => before
  }

  /** Each ring's history is what the tasks did to it, and all its entries are of its session. */
  ghost predicate FlowInv(s: System) {
    forall session ::
      && Moves(LedgerOf(s, session).history) == MovesBy(s.log, session)
      && forall i :: 0 <= i < |LedgerOf(s, session).ring| ==> LedgerOf(s, session).ring[i].session == session
  }

  lemma MovesOneMore(history: seq<RingEvent>, e: RingEvent)
    ensures Moves(history + [e]) == Moves(history) + [MoveOf(history, e)]
  {
    assert (history + [e])[..|history|] == history;
  }

  lemma MovesByOneMore(log: seq<Mark>, m: Mark, session: SessionId)
    ensures MovesBy(log + [m], session) ==
      match m
      case Forgot(s) => (if s == session then [] else MovesBy(log, session))
      case Mark(_, Parked(e)) => MovesBy(log, session) + (if e.session == session then [In(e)] else [])
      case Mark(_, GaveBack(e)) => MovesBy(log, session) + (if e.session == session then [In(e)] else [])
      case Mark(_, TookEntry(e)) => MovesBy(log, session) + (if e.session == session then [Out(Some(e))] else [])
      case _ => MovesBy(log, session)
  {
    assert (log + [m])[..|log|] == log;
  }

  /** A push with its mark. */
  lemma PushKeepsFlow(s: System, s': System, t: TaskId, deed: Deed, e: Entry)
    requires FlowInv(s) && s.cfg.capacity > 0 && (deed == Parked(e) || deed == GaveBack(e))
    requires s'.ledgers == s.ledgers[e.session := Pushing(LedgerOf(s, e.session), e, s.cfg.capacity)]
    requires s'.log == s.log + [Mark(t, deed)]
    ensures FlowInv(s')
  {
    hide Moves, MovesBy;
    forall session
      ensures Moves(LedgerOf(s', session).history) == MovesBy(s'.log, session)
      ensures forall i :: 0 <= i < |LedgerOf(s', session).ring| ==> LedgerOf(s', session).ring[i].session == session
    {
      MovesByOneMore(s.log, Mark(t, deed), session);
      MovesOneMore(LedgerOf(s, session).history, Pushed(e));
      PushedFrom(LedgerOf(s, session).ring, e, s.cfg.capacity);
    }
  }

  lemma PushedFrom(ring: seq<Entry>, e: Entry, capacity: nat)
    requires capacity > 0
    ensures var r := PushBack(ring, e, capacity); forall i :: 0 <= i < |r| ==> r[i] in ring || r[i] == e
  {
  }

  /** A take with its mark. */
  lemma TakeKeepsFlow(s: System, t: TaskId, session: SessionId, id: EntryId)
    requires FlowInv(s) && SharedInv(s) && s.cfg.capacity > 0 && Enabled(s, TakeEntry(t, session, id))
    ensures FlowInv(Next(s, TakeEntry(t, session, id)))
  {
    hide Moves, MovesBy, NewestSuffix, Spaced, RecentKept, CircuitsAfter;
    var s' := Next(s, TakeEntry(t, session, id));
    var l, e := LedgerOf(s, session), s'.tasks[t].taken.value;
    var pos := Find(l.ring, id).value;
    EmptyLedgerOk(s.cfg.capacity);
    assert LedgerOk(l, s.cfg.capacity);
    assert l.history[l.at[pos]] == Pushed(e) && e.session == session;
    MovesOneMore(l.history, Took(l.at[pos]));
    forall other
      ensures Moves(LedgerOf(s', other).history) == MovesBy(s'.log, other)
      ensures forall i :: 0 <= i < |LedgerOf(s', other).ring| ==> LedgerOf(s', other).ring[i].session == other
    {
      MovesByOneMore(s.log, Mark(t, TookEntry(e)), other);
    }
  }

  lemma StepKeepsFlow(s: System, a: Action)
    requires FlowInv(s) && SharedInv(s) && Enabled(s, a) && s.cfg.capacity > 0
    ensures FlowInv(Next(s, a))
  {
    hide FlowInv, SharedInv, Apply, Taking, Pushing, Fail, MovesBy;
    var s' := Next(s, a);
    match a
    case TakeEntry(t, session, id) => TakeKeepsFlow(s, t, session, id);
    case PutBack(t) => PushKeepsFlow(s, s', t, GaveBack(s.tasks[t].taken.value), s.tasks[t].taken.value);
    case Park(t, id, failedAt) =>
      var e := EntryFor(s.cfg, s.tasks[t], id, failedAt);
      PushKeepsFlow(s, s', t, Parked(e), e);
    case ForgetSession(session) => ForgetKeepsFlow(s, session);
    case _ => OtherKeepsFlow(s, s');
  }

  lemma ForgetKeepsFlow(s: System, session: SessionId)
    requires FlowInv(s)
    ensures FlowInv(s.(ledgers := s.ledgers - {session}, log := s.log + [Forgot(session)]))
  {
    hide MovesBy;
    forall other {
      MovesByOneMore(s.log, Forgot(session), other);
    }
  }

  /** A deed that leaves the rings alone. */
  predicate MovesNothing(m: Mark) {
    m.Mark? && (m.deed.Posted? || m.deed.Credited? || m.deed.Blamed? || m.deed.Disabled?)
  }

  lemma OtherKeepsFlow(s: System, s': System)
    requires FlowInv(s) && s'.ledgers == s.ledgers
    requires s'.log == s.log
      || exists m: Mark :: s'.log == s.log + [m] && MovesNothing(m)
    ensures FlowInv(s')
  {
    hide MovesBy;
    if s'.log != s.log {
      var m: Mark :| s'.log == s.log + [m] && MovesNothing(m);
      forall session {
        MovesByOneMore(s.log, m, session);
      }
    }
  }

  // ---- Failures on the breaker are failed deliveries ----

  predicate WasBlamed(stage: Stage) {
    stage.Disabling? || stage.Parking? || stage.DeadLettered?
  }

  /** The runs against `url` that have ended in failure as far as the breaker goes. */
  function FailedRuns(tasks: map<TaskId, Task>, url: Url): set<TaskId> {
    set t | t in tasks && tasks[t].url == url && WasBlamed(tasks[t].stage)
  }

  function SuccessfulRuns(tasks: map<TaskId, Task>, url: Url): set<TaskId> {
    set t | t in tasks && tasks[t].url == url && tasks[t].stage.Delivered?
  }

  function FailuresOf(ops: seq<CircuitOp>, url: Url): nat {
    if ops == [] then 0
    else
      var n := |ops| - 1;
      FailuresOf(ops[..n], url) + (if ops[n].FailedAt? && ops[n].url == url then 1 else 0)
  }

  function SuccessesOf(ops: seq<CircuitOp>, url: Url): nat {
    if ops == [] then 0
    else
      var n := |ops| - 1;
      SuccessesOf(ops[..n], url) + (if ops[n].Succeeded? && ops[n].url == url then 1 else 0)
  }

  ghost predicate CountsInv(s: System) {
    forall url ::
      && FailuresOf(s.ops, url) == |FailedRuns(s.tasks, url)|
      && SuccessesOf(s.ops, url) == |SuccessfulRuns(s.tasks, url)|
  }

  lemma CountsOneMore(ops: seq<CircuitOp>, op: CircuitOp, url: Url)
    ensures FailuresOf(ops + [op], url) == FailuresOf(ops, url) + (if op.FailedAt? && op.url == url then 1 else 0)
    ensures SuccessesOf(ops + [op], url) == SuccessesOf(ops, url) + (if op.Succeeded? && op.url == url then 1 else 0)
  {
    assert (ops + [op])[..|ops|] == ops;
  }

  lemma OneTaskMoves(tasks: map<TaskId, Task>, t: TaskId, task: Task, url: Url)
    ensures FailedRuns(tasks[t := task], url) ==
      (if task.url == url && WasBlamed(task.stage) then FailedRuns(tasks, url) + {t} else FailedRuns(tasks, url) - {t})
    ensures SuccessfulRuns(tasks[t := task], url) ==
      (if task.url == url && task.stage.Delivered? then SuccessfulRuns(tasks, url) + {t}
       else SuccessfulRuns(tasks, url) - {t})
  {
  }

  /** A step that moves one task, and one operation on the breaker or none. */
  lemma MoveKeepsCounts(s: System, s': System, t: TaskId, op: Option<CircuitOp>)
    requires CountsInv(s) && t in s'.tasks && s'.tasks == s.tasks[t := s'.tasks[t]]
    requires s'.ops == s.ops + (if op.Some? then [op.value] else [])
    requires t in s.tasks ==> s.tasks[t].url == s'.tasks[t].url && !s.tasks[t].stage.Delivered?
    requires var was := t in s.tasks && WasBlamed(s.tasks[t].stage); var now := WasBlamed(s'.tasks[t].stage);
      (was ==> now) && (!was && now <==> op.Some? && op.value.FailedAt?)
    requires s'.tasks[t].stage.Delivered? <==> op.Some? && op.value.Succeeded?
    requires op.Some? && !op.value.ReenabledAll? ==> op.value.url == s'.tasks[t].url
    ensures CountsInv(s')
  {
    hide FailedRuns, SuccessfulRuns, FailuresOf, SuccessesOf;
    forall url
      ensures FailuresOf(s'.ops, url) == |FailedRuns(s'.tasks, url)|
      ensures SuccessesOf(s'.ops, url) == |SuccessfulRuns(s'.tasks, url)|
    {
      OneTaskMoves(s.tasks, t, s'.tasks[t], url);
      RunMembers(s.tasks, t, url);
      if op.Some? {
        CountsOneMore(s.ops, op.value, url);
      } else {
        assert s'.ops == s.ops;
      }
    }
  }

  lemma RunMembers(tasks: map<TaskId, Task>, t: TaskId, url: Url)
    ensures t in FailedRuns(tasks, url) <==> t in tasks && tasks[t].url == url && WasBlamed(tasks[t].stage)
    ensures t in SuccessfulRuns(tasks, url) <==> t in tasks && tasks[t].url == url && tasks[t].stage.Delivered?
  {
  }

  lemma StepKeepsCounts(s: System, a: Action)
    requires CountsInv(s) && Enabled(s, a) && s.cfg.capacity > 0
    ensures CountsInv(Next(s, a))
  {
    hide CountsInv, Apply, Taking, Pushing, EntryFor, Fail;
    var s' := Next(s, a);
    match a
    case Credit(t) => MoveKeepsCounts(s, s', t, Some(Succeeded(s.tasks[t].url)));
    case Blame(t, now) => MoveKeepsCounts(s, s', t, Some(FailedAt(s.tasks[t].url, now)));
    case Disable(t) => MoveKeepsCounts(s, s', t, Some(Purged(s.tasks[t].url)));
    case ReenableAll(now) => ReenableKeepsCounts(s, now);
    case ForgetSession(_) => SameKeepsCounts(s, s');
    case Broadcast(t, _, _, _, _, _, _) =>
      if s' == s {
      } else {
        MoveKeepsCounts(s, s', t, None);
      }
    case _ => MoveKeepsCounts(s, s', a.t, None);
  }

  lemma SameKeepsCounts(s: System, s': System)
    requires CountsInv(s) && s'.ops == s.ops && s'.tasks == s.tasks
    ensures CountsInv(s')
  {
  }

  lemma ReenableKeepsCounts(s: System, now: Instant)
    requires CountsInv(s)
    ensures CountsInv(Operate(s, ReenabledAll(now)))
  {
    hide FailuresOf, SuccessesOf;
    forall url {
      CountsOneMore(s.ops, ReenabledAll(now), url);
    }
  }

  // ---- Every reachable state ----

  ghost predicate Inv(s: System) {
    TasksInv(s) && SharedInv(s) && FlowInv(s) && CountsInv(s)
  }

  lemma {:induction false} InvOverRun(s: System, run: seq<Action>)
    requires s.cfg.capacity > 0 && Inv(s) && IsRun(s, run)
    ensures Inv(After(s, run)) && After(s, run).cfg == s.cfg
    decreases |run|
  {
    hide TasksInv, SharedInv, FlowInv, CountsInv, Next, Enabled;
    if run != [] {
      StepKeepsTasks(s, run[0]);
      StepKeepsShared(s, run[0]);
      StepKeepsFlow(s, run[0]);
      StepKeepsCounts(s, run[0]);
      InvOverRun(Next(s, run[0]), run[1..]);
    }
  }

  lemma Reachable(cfg: Config, run: seq<Action>)
    requires cfg.capacity > 0 && IsRun(Start(cfg), run)
    ensures Inv(After(Start(cfg), run)) && After(Start(cfg), run).cfg == cfg
  {
    forall url
      ensures FailedRuns(map[], url) == {} && SuccessfulRuns(map[], url) == {}
    {
    }
    InvOverRun(Start(cfg), run);
  }

  /** Every delivery run makes at most `max(1, max_attempts)` posts, and ends in
      one of three ways. Delivered: one post succeeded, the last, and the circuit
      was credited once; nothing was blamed or parked. Dead-lettered: no post
      succeeded, one failure was blamed on the circuit, the URL was purged iff
      that was a hard disable, and one entry with this very event was parked.
      Refused replay: nothing was posted and the entry taken was given back. */
  lemma EndsOneWay(cfg: Config, run: seq<Action>, t: TaskId)
    requires cfg.capacity > 0 && IsRun(Start(cfg), run) && t in After(Start(cfg), run).tasks
    ensures var s := After(Start(cfg), run);
      var task := s.tasks[t];
      var began := if task.taken.Some? then [TookEntry(task.taken.value)] else [];
      && |task.replies| <= Attempts(cfg)
      && (forall i :: 0 <= i < |task.replies| - 1 ==> !IsSuccess(task.replies[i]) && !IsFinal(cfg, task.replies[i]))
      && (task.stage.Delivered? ==>
           && task.replies != [] && IsSuccess(task.replies[|task.replies| - 1])
           && DeedsOf(s.log, t) == began + Posts(task.replies) + [Credited])
      && (task.stage.DeadLettered? ==>
           var e := task.stage.entry;
           && task.replies != [] && !IsSuccess(e.lastError) && e.lastError == task.replies[|task.replies| - 1]
           && (|task.replies| == Attempts(cfg) || IsFinal(cfg, e.lastError))
           && e.session == task.session && e.url == task.url && e.event == task.event
           && e.payload == task.payload && e.secret == task.secret
           && DeedsOf(s.log, t) == began + Posts(task.replies) + BlameDeeds(task.stage.action) + [Parked(e)])
      && (task.stage.Refused? ==>
           && task.replies == [] && task.taken.Some?
           && DeedsOf(s.log, t) == [TookEntry(task.taken.value), GaveBack(task.taken.value)])
  {
    hide SharedInv, FlowInv, CountsInv, DeedsOf, Posts;
    Reachable(cfg, run);
  }

  /** The entry's `attempts` is the number of posts made iff the run was not cut
      short by a reply that is not retried. */
  lemma AttemptsFieldExact(cfg: Config, run: seq<Action>, t: TaskId)
    requires cfg.capacity > 0 && IsRun(Start(cfg), run)
    requires var s := After(Start(cfg), run); t in s.tasks && s.tasks[t].stage.DeadLettered?
    ensures var task := After(Start(cfg), run).tasks[t];
      && task.replies != []
      && (task.stage.entry.attempts == |task.replies| <==>
            !(IsFinal(cfg, task.replies[|task.replies| - 1]) && |task.replies| < Attempts(cfg)))
  {
    hide SharedInv, FlowInv, CountsInv, DeedsOf, Posts;
    Reachable(cfg, run);
  }

  /** With retries on 4xx off and more than one attempt configured: one post,
      answered 403, is dead-lettered as that many attempts. */
  lemma {:induction false} CutShortRun(cfg: Config) returns (run: seq<Action>)
    requires cfg.capacity > 0 && !cfg.retryOn4xx && Attempts(cfg) > 1
    ensures IsRun(Start(cfg), run) && 0 in After(Start(cfg), run).tasks
    ensures var task := After(Start(cfg), run).tasks[0];
      task.stage.DeadLettered? && task.replies == [Status(403)] && task.stage.entry.attempts == Attempts(cfg)
  {
    hide Pushing;
    var a0 := Broadcast(0, 0, 0, "", "", None, 0);
    var a1, a2, a3 := Post(0, Status(403)), Blame(0, 0), Park(0, 0, 0);
    var s1 := Next(Start(cfg), a0);
    var s2 := Next(s1, a1);
    var s3 := Next(s2, a2);
    var s4 := Next(s3, a3);
    run := [a0] + ([a1] + ([a2] + [a3]));
    assert run[1..] == [a1] + ([a2] + [a3]) && run[1..][1..] == [a2] + [a3] && run[1..][1..][1..] == [a3];
    assert [a3][1..] == [];
    assert IsRun(s3, [a3]) && After(s3, [a3]) == s4;
    assert IsRun(s2, run[1..][1..]) && After(s2, run[1..][1..]) == s4;
    assert IsRun(s1, run[1..]) && After(s1, run[1..]) == s4;
  }

  /** If the task is dead-lettered, its entry holds the number of posts it made. */
  predicate AttemptsRight(s: System, t: TaskId) {
    t in s.tasks && s.tasks[t].stage.DeadLettered? ==> s.tasks[t].stage.entry.attempts == |s.tasks[t].replies|
  }

  /** Every dead-lettered entry of every run holds the number of posts made if and
      only if 4xx replies are retried or one attempt is configured. */
  lemma {:induction false} AttemptsAlwaysRightIff(cfg: Config)
    requires cfg.capacity > 0
    ensures (forall run, t :: IsRun(Start(cfg), run) ==> AttemptsRight(After(Start(cfg), run), t))
      <==> cfg.retryOn4xx || Attempts(cfg) == 1
  {
    hide IsRun, After;
    if cfg.retryOn4xx || Attempts(cfg) == 1 {
      forall run, t | IsRun(Start(cfg), run)
        ensures AttemptsRight(After(Start(cfg), run), t)
      {
        if t in After(Start(cfg), run).tasks && After(Start(cfg), run).tasks[t].stage.DeadLettered? {
          AttemptsFieldExact(cfg, run, t);
        }
      }
    } else {
      var run := CutShortRun(cfg);
      assert !AttemptsRight(After(Start(cfg), run), 0);
    }
  }

  /** Whatever the interleaving, a URL is refused at `now` iff its last 25 or more
      failures came without a reset and the 25th less than 5 minutes before, and
      the breaker has seen one failure per failed run and one success per
      delivered run of that URL. */
  lemma BreakerFollowsRuns(cfg: Config, run: seq<Action>, url: Url, now: Instant)
    requires cfg.capacity > 0 && IsRun(Start(cfg), run)
    ensures var s := After(Start(cfg), run);
      && (Refuses(CircuitOf(s.circuits, url), now) <==> ShutOut(Streak(s.ops, url), now))
      && FailuresOf(s.ops, url) == |FailedRuns(s.tasks, url)|
      && SuccessesOf(s.ops, url) == |SuccessfulRuns(s.tasks, url)|
  {
    Reachable(cfg, run);
    RefusedIffShutOut(After(Start(cfg), run).ops, url, now);
  }

  /** A broadcast, and a replay that has taken its entry, go on to post if and only
      if fewer than 25 failures of the URL came since its last reset, or the 25th
      of them five minutes ago or more; nothing else changes either way. */
  lemma PostsIffNotShutOut(cfg: Config, run: seq<Action>, a: Action)
    requires cfg.capacity > 0 && IsRun(Start(cfg), run) && Enabled(After(Start(cfg), run), a)
    requires a.Broadcast? || a.TestCircuit?
    ensures After(Start(cfg), run).cfg == cfg
    ensures var s := After(Start(cfg), run);
      var s', url := Next(s, a), if a.Broadcast? then a.url else s.tasks[a.t].url;
      var streak := Streak(s.ops, url);
      && (At(s', a.t, Posting) <==> |streak| < 25 || a.now >= streak[24] + 300_000)
      && (a.Broadcast? && a.t in s'.tasks ==>
           s'.tasks[a.t] == Task(a.session, url, a.event, a.payload, a.secret, None, [], Posting))
      && (a.TestCircuit? && !At(s', a.t, Posting) ==> At(s', a.t, Returning))
      && s'.tasks - {a.t} == s.tasks - {a.t} && s'.circuits == s.circuits && s'.ledgers == s.ledgers && s'.log == s.log
  {
    hide TasksInv, FlowInv, CountsInv, Streak;
    Reachable(cfg, run);
    var s := After(Start(cfg), run);
    RefusedIffShutOut(s.ops, if a.Broadcast? then a.url else s.tasks[a.t].url, a.now);
  }

  /** Whatever the interleaving, each session's ring is within capacity and is
      the newest suffix of its pushes minus the entries taken; and its history is
      exactly what the tasks parked, gave back and took there, in that order,
      since the ring was last removed with its session. */
  lemma RingsAreNewestSuffixes(cfg: Config, run: seq<Action>, session: SessionId)
    requires cfg.capacity > 0 && IsRun(Start(cfg), run)
    ensures var s := After(Start(cfg), run);
      LedgerOk(LedgerOf(s, session), cfg.capacity) && Moves(LedgerOf(s, session).history) == MovesBy(s.log, session)
  {
    hide LedgerOk, TasksInv, CountsInv;
    Reachable(cfg, run);
    EmptyLedgerOk(cfg.capacity);
  }
}
