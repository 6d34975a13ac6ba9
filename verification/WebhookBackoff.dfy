// The wait before each delivery attempt, with the source's integer widths.
module WebhookBackoff {
  import opened WebhookCircuit

  const U64_MAX: nat := 0xFFFF_FFFF_FFFF_FFFF
  const TWO_32: nat := 0x1_0000_0000
  const CAP_SECS: nat := 300

  function Pow2(e: nat): (r: nat)
    ensures r >= 1
  {
    if e == 0 then 1 else 2 * Pow2(e - 1)
  }

  /** A u64 result that sticks at the maximum. */
  function Saturate(n: nat): nat {
    if n <= U64_MAX then n else U64_MAX
  }

  /** `webhook_retry_delay`: the exponent is cut to 32 bits before the power is taken. */
  function RetryDelay(attempt: nat): nat {
    match attempt
    case 0 => 0
    case 1 => 5
    case 2 => 30
    case n => Min(Saturate(60 * Saturate(Pow2((n - 3) % TWO_32))), CAP_SECS)
  }

  /** What the comment promises from attempt 3 on: 60 s doubled each time, capped at 5 min. */
  function Doubling(attempt: nat): nat
    requires attempt >= 3
  {
    Min(60 * Pow2(attempt - 3), CAP_SECS)
  }

  lemma {:induction false} Pow2Large(e: nat)
    requires e >= 3
    ensures Pow2(e) >= 8
  {
    if e > 3 {
      Pow2Large(e - 1);
    } else {
      assert Pow2(3) == 2 * Pow2(2);
    }
  }

  /** The delay by the exponent actually used: 60, 120, 240, then always 300. */
  lemma CappedFromThree(e: nat)
    ensures Min(60 * Pow2(e), CAP_SECS) ==
      (if e == 0 then 60 else if e == 1 then 120 else if e == 2 then 240 else CAP_SECS)
    ensures Min(Saturate(60 * Saturate(Pow2(e))), CAP_SECS) == Min(60 * Pow2(e), CAP_SECS)
  {
    if e >= 3 {
      Pow2Large(e);
    } else {
      assert Pow2(2) == 2 * Pow2(1) && Pow2(1) == 2 * Pow2(0);
    }
  }

  /** The delay is the promised doubling iff the 32-bit cut does not bring the
      exponent back below three; it always is for the first 2^32 attempts. */
  lemma DelayIsDoublingIff(attempt: nat)
    requires attempt >= 3
    ensures RetryDelay(attempt) == Doubling(attempt) <==> attempt < 6 || (attempt - 3) % TWO_32 >= 3
    ensures attempt < TWO_32 ==> RetryDelay(attempt) == Doubling(attempt)
  {
    CappedFromThree(attempt - 3);
    CappedFromThree((attempt - 3) % TWO_32);
  }

  /** The waits before the attempts that can be waited less than five minutes for. */
  lemma FirstWaits()
    ensures RetryDelay(0) == 0 && RetryDelay(1) == 5 && RetryDelay(2) == 30
    ensures RetryDelay(3) == 60 && RetryDelay(4) == 120 && RetryDelay(5) == 240
    ensures forall n :: 6 <= n < TWO_32 ==> RetryDelay(n) == 300
  {
    forall n: nat | 3 <= n < TWO_32
      ensures RetryDelay(n) == if n == 3 then 60 else if n == 4 then 120 else if n == 5 then 240 else 300
    {
      assert (n - 3) % TWO_32 == n - 3;
      CappedFromThree(n - 3);
    }
  }

  /** Up to the cut the waits never get shorter, and none is ever over 5 minutes. */
  lemma DelayGrows(a: nat, b: nat)
    ensures RetryDelay(a) <= CAP_SECS
    ensures a <= b < TWO_32 ==> RetryDelay(a) <= RetryDelay(b)
  {
    if a >= 3 {
      CappedFromThree((a - 3) % TWO_32);
    }
    if b >= 3 {
      CappedFromThree((b - 3) % TWO_32);
    }
  }

  /** The wrap: attempt 2^32 + 3 waits one minute, not five. */
  lemma WrapExample()
    ensures RetryDelay(TWO_32 + 3) == 60 && Doubling(TWO_32 + 3) == CAP_SECS
  {
    CappedFromThree(TWO_32);
    CappedFromThree(0);
    assert (TWO_32 + 3 - 3) % TWO_32 == 0;
  }
}
