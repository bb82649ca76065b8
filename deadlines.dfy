/** Deadline rules: the creation-time window check that `create_escrow` and
    `create_pool_escrow` run on an optional deadline, and the strict
    "deadline has passed" comparison that refunds and pool releases use. */
module Deadlines {
  import opened Base

  /** The i64 `checked_add` of two timestamps: None when the sum leaves the
      signed 64-bit range. */
  function CheckedAddI64(a: I64, b: I64): (r: Option<I64>)
    ensures r.Some? <==> I64_MIN <= a + b <= I64_MAX
    ensures r.Some? ==> r.value == a + b
  {
    if I64_MIN <= a + b <= I64_MAX then Some(a + b) else None
  }

  /** The creation-time deadline check: the deadline must lie strictly after
      `now`, computing the latest allowed deadline may overflow, and the
      deadline may be at most one year after `now`. */
  function ValidateDeadline(now: I64, deadline: I64): (r: Outcome)
    ensures r.Pass? <==> now < deadline && now + MAX_ESCROW_DURATION <= I64_MAX
                         && deadline <= now + MAX_ESCROW_DURATION
    ensures deadline <= now ==> r == Fail(DeadlineInPast)
    ensures now < deadline && now + MAX_ESCROW_DURATION > I64_MAX ==> r == Fail(Overflow)
    ensures now < deadline && now + MAX_ESCROW_DURATION <= I64_MAX && deadline > now + MAX_ESCROW_DURATION ==>
              r == Fail(DeadlineTooFar)
  {
    if deadline <= now then Fail(DeadlineInPast)
    else
      match CheckedAddI64(now, MAX_ESCROW_DURATION)
      case None => Fail(Overflow)
      case Some(maxDeadline) =>
        if deadline > maxDeadline then Fail(DeadlineTooFar) else Pass
  }

  /** An escrow created without a deadline skips the window check. */
  function ValidateOptionalDeadline(now: I64, deadline: Option<I64>): (r: Outcome)
    ensures r.Pass? <==> deadline.None? ||
                         (now < deadline.value && now + MAX_ESCROW_DURATION <= I64_MAX
                          && deadline.value <= now + MAX_ESCROW_DURATION)
    ensures deadline.Some? && deadline.value <= now ==> r == Fail(DeadlineInPast)
    ensures deadline.Some? && now < deadline.value && now + MAX_ESCROW_DURATION > I64_MAX ==> r == Fail(Overflow)
    ensures deadline.Some? && now < deadline.value && now + MAX_ESCROW_DURATION <= I64_MAX
            && deadline.value > now + MAX_ESCROW_DURATION ==>
              r == Fail(DeadlineTooFar)
  {
    match deadline
    case None => Pass
    case Some(dl) => ValidateDeadline(now, dl)
  }

  /** Strict comparison: a deadline has passed only once the clock is beyond it. */
  predicate IsDeadlinePassed(now: I64, deadline: I64)
  {
    now > deadline
  }

  /** Both ends of the window: one second after `now` and exactly one year
      after `now` are accepted; `now` itself and one year plus one second are
      not. */
  lemma WindowBounds(now: I64)
    requires now + MAX_ESCROW_DURATION + 1 <= I64_MAX
    ensures ValidateDeadline(now, now + 1) == Pass
    ensures ValidateDeadline(now, now + MAX_ESCROW_DURATION) == Pass
    ensures ValidateDeadline(now, now) == Fail(DeadlineInPast)
    ensures ValidateDeadline(now, now + MAX_ESCROW_DURATION + 1) == Fail(DeadlineTooFar)
  {
  }

  /** Every accepted deadline lies in (now, now + one year]. */
  lemma AcceptedWithinYear(now: I64, deadline: I64)
    requires ValidateDeadline(now, deadline).Pass?
    ensures 0 < deadline - now <= 31_536_000
  {
  }

  /** The two outcomes of the test suite's fixed-clock cases, at now = 1.7e9:
      a deadline one second in the past and one a hundred years ahead. */
  lemma WindowExamples()
    ensures ValidateDeadline(1_700_000_000, 1_699_999_999) == Fail(DeadlineInPast)
    ensures ValidateDeadline(1_700_000_000, 1_700_000_000 + 100 * 31_536_000) == Fail(DeadlineTooFar)
  {
  }

  /** The comparison is strict: equal times have not passed, one second later has. */
  lemma DeadlineStrict(t: I64)
    requires t < I64_MAX
    ensures !IsDeadlinePassed(t, t)
    ensures IsDeadlinePassed(t + 1, t)
    ensures t > I64_MIN ==> !IsDeadlinePassed(t - 1, t)
  {
  }
}
