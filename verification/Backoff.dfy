/** The retry delay of the network sink: doubling in 32 bits, capped. */
module Backoff {
  import opened Sequences

  const UINT32_LIMIT: nat := 0x1_0000_0000

  function Min(a: nat, b: nat): nat {
    if a <= b then a else b
  }

  /** std::min<uint32_t>(retry_ms * 2, retry_max_ms): the product wraps. */
  function NextRetry(retry: nat, max: nat): nat {
    Min(retry * 2 % UINT32_LIMIT, max)
  }

  /** The delay used for the k-th consecutive failure, counted from zero. */
  function RetryDelay(base: nat, max: nat, k: nat): nat {
    if k == 0 then base else NextRetry(RetryDelay(base, max, k - 1), max)
  }

  function Pow2(k: nat): (r: nat)
    ensures r >= 1
  {
    if k == 0 then 1 else 2 * Pow2(k - 1)
  }

  lemma {:induction false} DelayWithoutWrap(base: nat, max: nat, k: nat)
    requires 1 <= base <= max < UINT32_LIMIT / 2
    ensures RetryDelay(base, max, k) == Min(base * Pow2(k), max)
  {
    if k > 0 {
      DelayWithoutWrap(base, max, k - 1);
      DoubledProduct(base, Pow2(k - 1));
      NextWithoutWrap(RetryDelay(base, max, k - 1), max);
    }
  }

  lemma NextWithoutWrap(retry: nat, max: nat)
    requires retry <= max < UINT32_LIMIT / 2
    ensures NextRetry(retry, max) == Min(2 * retry, max)
  {
  }

  lemma DoubledProduct(a: nat, p: nat)
    ensures a * (2 * p) == 2 * (a * p)
  {
  }

  lemma {:induction false} Pow2AtLeast(k: nat)
    ensures Pow2(k) > k
  {
    if k > 0 { Pow2AtLeast(k - 1); }
  }

  /** As long as doubling stays below half the word, the code's delay is the uncapped power. */
  lemma {:induction false} DelayBeforeWrap(base: nat, max: nat, k: nat)
    requires base * Pow2(k) <= max < UINT32_LIMIT && 1 <= base
    ensures RetryDelay(base, max, k) == base * Pow2(k)
  {
    if k > 0 {
      var half := base * Pow2(k - 1);
      DoubledProduct(base, Pow2(k - 1));
      assert base * Pow2(k) == 2 * half;
      hide Pow2, NextRetry;
      DelayBeforeWrap(base, max, k - 1);
      NextBelowCap(half, max);
    }
  }

  lemma NextBelowCap(half: nat, max: nat)
    requires 2 * half <= max < UINT32_LIMIT
    ensures NextRetry(half, max) == 2 * half
  {
  }

  /** The last power not above max. */
  lemma {:induction false} LastPower(base: nat, max: nat, k: nat) returns (last: nat)
    requires 1 <= base && base * Pow2(k) <= max
    ensures base * Pow2(last) <= max < base * Pow2(last + 1)
    decreases max - base * Pow2(k)
  {
    DoubledProduct(base, Pow2(k));
    assert base * Pow2(k) >= 1 by { Pow2AtLeast(k); Product(base, Pow2(k)); }
    if max < base * Pow2(k + 1) { last := k; } else { last := LastPower(base, max, k + 1); }
  }

  lemma Product(a: nat, b: nat)
    requires a >= 1 && b >= 1
    ensures a * b >= 1
  {
  }

  /**
    The k-th delay is min(base * 2^k, max) for every k exactly when the cap is below 2^31.
    The configuration check guarantees 1 <= base <= max and nothing about 2^31.
  */
  lemma BackoffExactly(base: nat, max: nat)
    requires 1 <= base <= max < UINT32_LIMIT
    ensures (forall k: nat :: RetryDelay(base, max, k) == Min(base * Pow2(k), max)) <==> max < UINT32_LIMIT / 2
  {
    if max < UINT32_LIMIT / 2 {
      forall k: nat ensures RetryDelay(base, max, k) == Min(base * Pow2(k), max) { DelayWithoutWrap(base, max, k); }
    } else {
      var k := SomeDelayWraps(base, max);
      hide RetryDelay, Min, Pow2;
    }
  }

  /** Doubling the last power below the cap wraps, or doubling the cap does. */
  lemma SomeDelayWraps(base: nat, max: nat) returns (k: nat)
    requires 1 <= base <= max < UINT32_LIMIT && max >= UINT32_LIMIT / 2
    ensures RetryDelay(base, max, k) != Min(base * Pow2(k), max)
  {
    assert base * Pow2(0) == base;
    var last := LastPower(base, max, 0);
    var d := base * Pow2(last);
    DelayBeforeWrap(base, max, last);
    DoubledProduct(base, Pow2(last));
    DoubledProduct(base, Pow2(last + 1));
    DelayNext(base, max, last);
    DelayNext(base, max, last + 1);
    assert base * Pow2(last + 1) == 2 * d && base * Pow2(last + 2) == 2 * (2 * d);
    hide RetryDelay, Pow2, NextRetry, Min;
    OneOfTwoWraps(d, max);
    k := if d >= UINT32_LIMIT / 2 then last + 1 else last + 2;
  }

  lemma DelayNext(base: nat, max: nat, k: nat)
    ensures RetryDelay(base, max, k + 1) == NextRetry(RetryDelay(base, max, k), max)
  {
  }

  lemma OneOfTwoWraps(d: nat, max: nat)
    requires d <= max < 2 * d && UINT32_LIMIT / 2 <= max < UINT32_LIMIT
    ensures if d >= UINT32_LIMIT / 2 then NextRetry(d, max) != Min(2 * d, max)
            else NextRetry(NextRetry(d, max), max) != Min(2 * (2 * d), max)
  {
    NextWraps(if d >= UINT32_LIMIT / 2 then d else max, max);
    if d < UINT32_LIMIT / 2 { NextFits(d, max); }
    hide NextRetry;
  }

  lemma NextFits(d: nat, max: nat)
    requires 2 * d < UINT32_LIMIT
    ensures NextRetry(d, max) == Min(2 * d, max)
  {
  }

  /** Doubling half the word or more wraps to something shorter. */
  lemma NextWraps(retry: nat, max: nat)
    requires UINT32_LIMIT / 2 <= retry <= max < UINT32_LIMIT
    ensures NextRetry(retry, max) < retry
  {
  }

  // ---- The schedule of flush attempts ----

  /** The start of the loop, the flush interval, and the first and the largest retry delay. */
  datatype Pacing = Pacing(startMs: nat, intervalMs: nat, baseMs: nat, maxMs: nat)

  /** One turn of the loop: the time, whether records were pending, and how flush_pending went if it was called. */
  datatype Turn = Turn(nowMs: nat, pending: bool, flushed: Option<bool>)

  /** Failures in a row, up to now. */
  function Streak(turns: seq<Turn>): nat {
    if turns == [] then 0
    else
      match turns[|turns| - 1].flushed
      case None => Streak(turns[..|turns| - 1])
      case Some(ok) => if ok then 0 else 1 + Streak(turns[..|turns| - 1])
  }

  /** When the next flush is due: an interval after a success, and the k-th delay after a failure that follows k. */
  function Due(turns: seq<Turn>, p: Pacing): nat {
    if turns == [] then p.startMs
    else
      var init, last := turns[..|turns| - 1], turns[|turns| - 1];
      match last.flushed
      case None => Due(init, p)
      case Some(ok) => last.nowMs + if ok then p.intervalMs else RetryDelay(p.baseMs, p.maxMs, Streak(init))
  }

  /** The same with min(base * 2^k, max) for the k-th delay. */
  function DueInPowers(turns: seq<Turn>, p: Pacing): nat {
    if turns == [] then p.startMs
    else
      var init, last := turns[..|turns| - 1], turns[|turns| - 1];
      match last.flushed
      case None => DueInPowers(init, p)
      case Some(ok) => last.nowMs + if ok then p.intervalMs else Min(p.baseMs * Pow2(Streak(init)), p.maxMs)
  }

  function Failures(turns: seq<Turn>): nat {
    if turns == [] then 0
    else Failures(turns[..|turns| - 1]) + if turns[|turns| - 1].flushed == Some(false) then 1 else 0
  }

  /** A turn flushes exactly when something is pending and a flush is due. */
  ghost predicate Paced(turns: seq<Turn>, p: Pacing) {
    forall i :: 0 <= i < |turns| ==>
      (turns[i].flushed.Some? <==> turns[i].pending && turns[i].nowMs >= Due(turns[..i], p))
  }

  /** The loop variables agree with the turns so far. */
  ghost predicate OnSchedule(turns: seq<Turn>, p: Pacing, retryMs: nat, nextFlushMs: nat) {
    && Paced(turns, p) && nextFlushMs == Due(turns, p)
    && retryMs == RetryDelay(p.baseMs, p.maxMs, Streak(turns))
  }

  lemma NoTurns(p: Pacing)
    ensures OnSchedule([], p, p.baseMs, p.startMs) && Failures([]) == 0
  {
  }

  lemma ScheduledIsPaced(turns: seq<Turn>, p: Pacing, retryMs: nat, nextFlushMs: nat)
    requires OnSchedule(turns, p, retryMs, nextFlushMs)
    ensures Paced(turns, p)
  {
  }

  lemma PacedOne(turns: seq<Turn>, p: Pacing, t: Turn)
    requires Paced(turns, p) && (t.flushed.Some? <==> t.pending && t.nowMs >= Due(turns, p))
    ensures Paced(turns + [t], p)
  {
    assert (turns + [t])[..|turns|] == turns;
    hide Due;
    assert forall i :: 0 <= i < |turns| ==> (turns + [t])[..i] == turns[..i] && (turns + [t])[i] == turns[i];
  }

  /** What the loop does with its two variables keeps them on schedule, whatever the delays are. */
  lemma ScheduleNext(turns: seq<Turn>, p: Pacing, retryMs: nat, dueMs: nat, t: Turn)
    requires OnSchedule(turns, p, retryMs, dueMs)
    requires t.flushed.Some? <==> t.pending && t.nowMs >= dueMs
    ensures t.flushed.None? ==> OnSchedule(turns + [t], p, retryMs, dueMs)
    ensures t.flushed == Some(true) ==> OnSchedule(turns + [t], p, p.baseMs, t.nowMs + p.intervalMs)
    ensures t.flushed == Some(false) ==>
              OnSchedule(turns + [t], p, NextRetry(retryMs, p.maxMs), t.nowMs + retryMs)
    ensures Failures(turns + [t]) == Failures(turns) + if t.flushed == Some(false) then 1 else 0
  {
    PacedOne(turns, p, t);
    TurnMore(turns, p, t);
    DelayNext(p.baseMs, p.maxMs, Streak(turns));
    assert RetryDelay(p.baseMs, p.maxMs, 0) == p.baseMs;
    hide Paced, NextRetry, Due, Streak, Failures, RetryDelay;
    match t.flushed
    case None =>
    case Some(ok) =>
      if ok {
        assert Streak(turns + [t]) == 0;
      } else {
        assert Streak(turns + [t]) == Streak(turns) + 1;
      }
  }

  lemma TurnMore(turns: seq<Turn>, p: Pacing, t: Turn)
    ensures Failures(turns + [t]) == Failures(turns) + if t.flushed == Some(false) then 1 else 0
    ensures Streak(turns + [t])
         == if t.flushed.None? then Streak(turns) else if t.flushed.value then 0 else 1 + Streak(turns)
    ensures Due(turns + [t], p)
         == if t.flushed.None? then Due(turns, p)
            else t.nowMs + if t.flushed.value then p.intervalMs else RetryDelay(p.baseMs, p.maxMs, Streak(turns))
  {
    assert (turns + [t])[..|turns|] == turns;
  }

  lemma {:induction false} DueWithoutWrap(turns: seq<Turn>, p: Pacing)
    requires 1 <= p.baseMs <= p.maxMs < UINT32_LIMIT / 2
    ensures Due(turns, p) == DueInPowers(turns, p)
  {
    if turns != [] {
      var init := turns[..|turns| - 1];
      DueWithoutWrap(init, p);
      DelayWithoutWrap(p.baseMs, p.maxMs, Streak(init));
    }
  }

  /** k turns that all failed. */
  function Failing(k: nat): (turns: seq<Turn>)
    ensures |turns| == k
  {
    seq(k, i requires 0 <= i < k => Turn(0, true, Some(false)))
  }

  lemma {:induction false} FailingStreak(k: nat)
    ensures Streak(Failing(k)) == k
  {
    if k > 0 {
      assert Failing(k)[..k - 1] == Failing(k - 1);
      FailingStreak(k - 1);
    }
  }

  /** min(base * 2^k, max) paces every run exactly when the cap is below 2^31. */
  lemma PacingExactly(p: Pacing)
    requires 1 <= p.baseMs <= p.maxMs < UINT32_LIMIT
    ensures (forall turns :: Due(turns, p) == DueInPowers(turns, p)) <==> p.maxMs < UINT32_LIMIT / 2
  {
    if p.maxMs < UINT32_LIMIT / 2 {
      forall turns ensures Due(turns, p) == DueInPowers(turns, p) { DueWithoutWrap(turns, p); }
    } else {
      BackoffExactly(p.baseMs, p.maxMs);
      var k: nat :| RetryDelay(p.baseMs, p.maxMs, k) != Min(p.baseMs * Pow2(k), p.maxMs);
      hide RetryDelay, Pow2, Min;
      var turns := Failing(k + 1);
      assert turns[..k] == Failing(k);
      FailingStreak(k);
      assert Due(turns, p) != DueInPowers(turns, p);
    }
  }
}
