// The per-URL circuit breaker of webhook delivery, and the record of failed
// deliveries it stands for.
module WebhookCircuit {
  import opened Wrappers

  type Url = nat
  /** A monotonic clock reading in milliseconds. */
  type Instant = nat

  const OPEN_THRESHOLD: nat := 25
  const HARD_DISABLE_THRESHOLD: nat := 100
  const COOLDOWN: nat := 300_000
  const U32_MAX: nat := 0xFFFF_FFFF

  datatype FailureAction = Noop | Open | HardDisable

  datatype Circuit = Circuit(failures: nat, openedUntil: Option<Instant>)

  type Circuits = map<Url, Circuit>

  /** The atomic operations on the breaker, in the order they took effect. */
  datatype CircuitOp =
    | Succeeded(url: Url)
    | FailedAt(url: Url, at: Instant)
    | Purged(url: Url)
    | ReenabledAll(at: Instant)

  const CLOSED := Circuit(0, None)

  function CircuitOf(circuits: Circuits, url: Url): Circuit {
    if url in circuits then circuits[url] else CLOSED
  }

  predicate Refuses(c: Circuit, now: Instant) {
    c.openedUntil.Some? && now < c.openedUntil.value
  }

  function SaturatingSucc(n: nat): nat {
    if n < U32_MAX then n + 1 else n
  }

  /** One failure on one circuit: the hard-disable test comes first and skips the opening. */
  function Fail(c: Circuit, now: Instant): (Circuit, FailureAction) {
    var failures := SaturatingSucc(c.failures);
    if failures >= HARD_DISABLE_THRESHOLD then
      (c.(failures := failures), HardDisable)
    else if failures >= OPEN_THRESHOLD && c.openedUntil.None? then
      (Circuit(failures, Some(now + COOLDOWN)), Open)
    else
      (c.(failures := failures), Noop)
  }

  function Reenabled(circuits: Circuits, now: Instant): Circuits {
    map u | u in circuits :: if Refuses(circuits[u], now) then CLOSED else circuits[u]
  }

  function Apply(circuits: Circuits, op: CircuitOp): Circuits {
    match op
    case Succeeded(url) => if url in circuits then circuits[url := CLOSED] else circuits
    case FailedAt(url, at) => circuits[url := Fail(CircuitOf(circuits, url), at).0]
    case Purged(url) => circuits - {url}
    case ReenabledAll(at) => Reenabled(circuits, at)
  }

  function CircuitsAfter(ops: seq<CircuitOp>): Circuits {
    if ops == [] then map[] else Apply(CircuitsAfter(ops[..|ops| - 1]), ops[|ops| - 1])
  }

  // ---- What the breaker stands for: the failures since the last reset ----

  /** A URL is shut out at `t` when 25 deliveries have failed since its last
      reset, and the 25th of them was less than 5 minutes ago. */
  predicate ShutOut(streak: seq<Instant>, t: Instant) {
    |streak| >= OPEN_THRESHOLD && t < streak[OPEN_THRESHOLD - 1] + COOLDOWN
  }

  predicate Resets(op: CircuitOp, url: Url, streak: seq<Instant>) {
    match op
    case Succeeded(u) => u == url
    case FailedAt(_, _) => false
    case Purged(u) => u == url
    case ReenabledAll(at) => ShutOut(streak, at)
  }

  /** The times of the failed deliveries to `url` since its last reset. */
  function Streak(ops: seq<CircuitOp>, url: Url): seq<Instant> {
    if ops == [] then []
    else
      var before, op := Streak(ops[..|ops| - 1], url), ops[|ops| - 1];
      if Resets(op, url, before) then []
      else if op.FailedAt? && op.url == url then before + [op.at]
      else before
  }

  function Min(a: nat, b: nat): nat {
    if a <= b then a else b
  }

  /** The circuit a streak of failures amounts to. */
  function CircuitFor(streak: seq<Instant>): Circuit {
    Circuit(Min(|streak|, U32_MAX),
            if |streak| >= OPEN_THRESHOLD then Some(streak[OPEN_THRESHOLD - 1] + COOLDOWN) else None)
  }

  function ActionFor(streak: seq<Instant>): FailureAction {
    if |streak| >= HARD_DISABLE_THRESHOLD then HardDisable else if |streak| == OPEN_THRESHOLD then Open else Noop
  }

  /** A failure after `streak` moves the circuit to that of the longer streak:
      `Open` exactly at the 25th, `HardDisable` exactly from the 100th. */
  lemma FailExtendsStreak(streak: seq<Instant>, now: Instant)
    ensures Fail(CircuitFor(streak), now) == (CircuitFor(streak + [now]), ActionFor(streak + [now]))
  {
    if |streak| >= OPEN_THRESHOLD {
      assert (streak + [now])[OPEN_THRESHOLD - 1] == streak[OPEN_THRESHOLD - 1];
    }
  }

  /** After any sequence of operations each circuit is the one its streak of
      failures amounts to; in particular it is open for ever until a reset once
      25 failures have come, and refuses for 5 minutes after the 25th only. */
  lemma {:induction false} CircuitsFollowStreaks(ops: seq<CircuitOp>, url: Url)
    ensures CircuitOf(CircuitsAfter(ops), url) == CircuitFor(Streak(ops, url))
  {
    if ops == [] {
      assert Streak(ops, url) == [];
    } else {
      var before, op := ops[..|ops| - 1], ops[|ops| - 1];
      CircuitsFollowStreaks(before, url);
      if op.FailedAt? && op.url == url {
        FailExtendsStreak(Streak(before, url), op.at);
      }
    }
  }

  /** A URL is refused at `now` iff its streak shuts it out. */
  lemma RefusedIffShutOut(ops: seq<CircuitOp>, url: Url, now: Instant)
    ensures Refuses(CircuitOf(CircuitsAfter(ops), url), now) <==> ShutOut(Streak(ops, url), now)
  {
    CircuitsFollowStreaks(ops, url);
  }

  /** The URLs refused at `now`: finitely many, since each has an entry. */
  ghost function RefusedUrls(circuits: Circuits, now: Instant): set<Url> {
    set u | u in circuits && Refuses(circuits[u], now)
  }

  /** The set behind the open count is exactly the set of URLs shut out. */
  lemma RefusedUrlsAreShutOut(ops: seq<CircuitOp>, now: Instant)
    ensures forall u :: u in RefusedUrls(CircuitsAfter(ops), now) <==> ShutOut(Streak(ops, u), now)
  {
    forall u
      ensures u in RefusedUrls(CircuitsAfter(ops), now) <==> ShutOut(Streak(ops, u), now)
    {
      RefusedIffShutOut(ops, u, now);
    }
  }

  /** Re-enabling leaves no URL refused, forgets the failures of exactly those
      that were, and keeps every other streak. */
  lemma ReenableClearsExactlyRefused(ops: seq<CircuitOp>, now: Instant, url: Url)
    ensures RefusedUrls(CircuitsAfter(ops + [ReenabledAll(now)]), now) == {}
    ensures Streak(ops + [ReenabledAll(now)], url) ==
      (if url in RefusedUrls(CircuitsAfter(ops), now) then [] else Streak(ops, url))
  {
    var after := ops + [ReenabledAll(now)];
    assert after[..|after| - 1] == ops;
    RefusedUrlsAreShutOut(ops, now);
    RefusedUrlsAreShutOut(after, now);
  }

  /** The cooldown runs out once: while deliveries go on failing after it, the
      URL is let through until the hard disable, whatever the failures. */
  lemma {:induction false} ExpiredStaysAllowed(ops: seq<CircuitOp>, more: seq<Instant>, url: Url, now: Instant)
    requires |Streak(ops, url)| >= OPEN_THRESHOLD && !ShutOut(Streak(ops, url), now)
    ensures forall t :: t >= now ==> !Refuses(CircuitOf(CircuitsAfter(ops + Failures(url, more)), url), t)
  {
    var fails := Failures(url, more);
    StreakGrows(ops, fails, url);
    CircuitsFollowStreaks(ops + fails, url);
  }

  /** Failed deliveries to one URL, one after the other. */
  function Failures(url: Url, times: seq<Instant>): seq<CircuitOp> {
    seq(|times|, i requires 0 <= i < |times| => FailedAt(url, times[i]))
  }

  lemma {:induction false} FailuresAreStreak(url: Url, times: seq<Instant>)
    ensures Streak(Failures(url, times), url) == times
  {
    if times != [] {
      var n := |times| - 1;
      FailuresAreStreak(url, times[..n]);
      assert Failures(url, times)[..n] == Failures(url, times[..n]);
      assert times[..n] + [times[n]] == times;
    }
  }

  /** 25 failures shut the URL out; once the five minutes are over a 26th failure
      does not shut it out again. */
  lemma FailingUrlLetThrough(url: Url)
    ensures var first := seq(OPEN_THRESHOLD, _ => 0); var more := first + [COOLDOWN];
      && Refuses(CircuitOf(CircuitsAfter(Failures(url, first)), url), COOLDOWN - 1)
      && !Refuses(CircuitOf(CircuitsAfter(Failures(url, more)), url), COOLDOWN)
      && |Streak(Failures(url, more), url)| == OPEN_THRESHOLD + 1
  {
    var first: seq<Instant> := seq(OPEN_THRESHOLD, _ => 0);
    var more := first + [COOLDOWN];
    FailuresAreStreak(url, first);
    FailuresAreStreak(url, more);
    RefusedIffShutOut(Failures(url, first), url, COOLDOWN - 1);
    RefusedIffShutOut(Failures(url, more), url, COOLDOWN);
  }

  lemma {:induction false} StreakGrows(ops: seq<CircuitOp>, fails: seq<CircuitOp>, url: Url)
    requires forall op :: op in fails ==> op.FailedAt? && op.url == url
    ensures Streak(ops, url) <= Streak(ops + fails, url)
  {
    if fails == [] {
      assert ops + fails == ops;
    } else {
      var init := fails[..|fails| - 1];
      StreakGrows(ops, init, url);
      assert (ops + fails)[..|ops + fails| - 1] == ops + init;
    }
  }
}
