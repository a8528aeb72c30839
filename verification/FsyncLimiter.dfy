/** The limiter in front of fdatasync: windows of a minute that start at an attempt, not on the minute. */
module FsyncLimiter {

  const MINUTE_MS: nat := 60_000

  /** fsync_window_start_ms_ and fsync_in_window_. */
  datatype Limiter = Limiter(startMs: nat, count: nat)

  const NEW_LIMITER := Limiter(0, 0)

  /** The window that a request at nowMs falls into. */
  function Rolled(l: Limiter, nowMs: nat): Limiter {
    if nowMs >= l.startMs + MINUTE_MS then Limiter(nowMs, 0) else l
  }

  predicate Admits(l: Limiter, limit: nat, nowMs: nat) {
    Rolled(l, nowMs).count < limit
  }

  function After(l: Limiter, limit: nat, nowMs: nat): Limiter {
    var r := Rolled(l, nowMs);
    if Admits(l, limit, nowMs) then r.(count := r.count + 1) else r
  }

  /** A request is let through exactly when its window is a minute old, or has not had its number yet. */
  lemma AdmitsExactly(l: Limiter, limit: nat, nowMs: nat)
    ensures nowMs - l.startMs >= 60_000 ==>
              (Admits(l, limit, nowMs) <==> limit > 0)
              && After(l, limit, nowMs) == Limiter(nowMs, if limit > 0 then 1 else 0)
    ensures nowMs - l.startMs < 60_000 ==>
              (Admits(l, limit, nowMs) <==> l.count < limit)
              && After(l, limit, nowMs) == Limiter(l.startMs, if l.count < limit then l.count + 1 else l.count)
  {
  }

  // ---- Runs: the times of the requests, on a clock that does not go back ----

  predicate Monotone(times: seq<nat>) {
    forall i, j :: 0 <= i < j < |times| ==> times[i] <= times[j]
  }

  function LimiterAfter(limit: nat, times: seq<nat>): Limiter {
    if times == [] then NEW_LIMITER
    else After(LimiterAfter(limit, times[..|times| - 1]), limit, times[|times| - 1])
  }

  /** The times of the requests that were let through. */
  function Attempts(limit: nat, times: seq<nat>): seq<nat> {
    if times == [] then []
    else
      var n := |times| - 1;
      Attempts(limit, times[..n])
      + if Admits(LimiterAfter(limit, times[..n]), limit, times[n]) then [times[n]] else []
  }

  /** How many of the times are at least lo and below hi. */
  function Within(times: seq<nat>, lo: int, hi: int): nat {
    if times == [] then 0
    else
      var t := times[|times| - 1];
      Within(times[..|times| - 1], lo, hi) + if lo <= t < hi then 1 else 0
  }

  lemma WithinSnoc(times: seq<nat>, t: nat, lo: int, hi: int)
    ensures Within(times + [t], lo, hi) == Within(times, lo, hi) + if lo <= t < hi then 1 else 0
  {
    assert (times + [t])[..|times|] == times;
  }

  lemma {:induction false} WithinWider(times: seq<nat>, lo: int, hi: int, wideLo: int, wideHi: int)
    requires wideLo <= lo && hi <= wideHi
    ensures Within(times, lo, hi) <= Within(times, wideLo, wideHi)
  {
    if times != [] { WithinWider(times[..|times| - 1], lo, hi, wideLo, wideHi); }
  }

  lemma {:induction false} WithinSplit(times: seq<nat>, lo: int, mid: int, hi: int)
    requires lo <= mid <= hi
    ensures Within(times, lo, hi) == Within(times, lo, mid) + Within(times, mid, hi)
  {
    if times != [] { WithinSplit(times[..|times| - 1], lo, mid, hi); }
  }

  lemma {:induction false} WithinNone(times: seq<nat>, lo: int, hi: int)
    requires forall i :: 0 <= i < |times| ==> times[i] < lo
    ensures Within(times, lo, hi) == 0
  {
    if times != [] {
      assert forall i :: 0 <= i < |times| - 1 ==> times[..|times| - 1][i] == times[i];
      WithinNone(times[..|times| - 1], lo, hi);
    }
  }

  /** How many fall into the half-open minute that starts at x. */
  function InMinute(times: seq<nat>, x: int): nat {
    Within(times, x, x + MINUTE_MS)
  }

  ghost predicate TwicePerMinute(attempts: seq<nat>, limit: nat) {
    forall x: int :: InMinute(attempts, x) <= 2 * limit
  }

  /** The current window holds `count` attempts, the minute before it at most `limit`, and no later one any. */
  ghost predicate Limits(l: Limiter, attempts: seq<nat>, limit: nat) {
    && l.count <= limit
    && (forall i :: 0 <= i < |attempts| ==> attempts[i] < l.startMs + MINUTE_MS)
    && Within(attempts, l.startMs, l.startMs + MINUTE_MS) == l.count
    && Within(attempts, l.startMs - MINUTE_MS, l.startMs) <= limit
    && TwicePerMinute(attempts, limit)
  }

  lemma RolledLimits(l: Limiter, attempts: seq<nat>, limit: nat, nowMs: nat)
    requires Limits(l, attempts, limit) && l.startMs <= nowMs
    ensures Limits(Rolled(l, nowMs), attempts, limit) && nowMs < Rolled(l, nowMs).startMs + MINUTE_MS
  {
    if nowMs >= l.startMs + MINUTE_MS {
      WithinNone(attempts, nowMs, nowMs + MINUTE_MS);
      if nowMs - MINUTE_MS <= l.startMs + MINUTE_MS {
        WithinSplit(attempts, nowMs - MINUTE_MS, l.startMs + MINUTE_MS, nowMs);
        WithinWider(attempts, nowMs - MINUTE_MS, l.startMs + MINUTE_MS, l.startMs, l.startMs + MINUTE_MS);
        WithinNone(attempts, l.startMs + MINUTE_MS, nowMs);
      } else {
        WithinNone(attempts, nowMs - MINUTE_MS, nowMs);
      }
    }
  }

  lemma AttemptLimits(l: Limiter, attempts: seq<nat>, limit: nat, nowMs: nat)
    requires Limits(l, attempts, limit) && l.startMs <= nowMs < l.startMs + MINUTE_MS && l.count < limit
    ensures Limits(l.(count := l.count + 1), attempts + [nowMs], limit)
  {
    WithinSnoc(attempts, nowMs, l.startMs, l.startMs + MINUTE_MS);
    WithinSnoc(attempts, nowMs, l.startMs - MINUTE_MS, l.startMs);
    hide Within;
    forall x: int ensures InMinute(attempts + [nowMs], x) <= 2 * limit {
      assert InMinute(attempts, x) <= 2 * limit;
      WithinSnoc(attempts, nowMs, x, x + MINUTE_MS);
      if x <= nowMs < x + MINUTE_MS {
        // The interval reaches back less than a minute before the window, and beyond the window there is nothing.
        var end := l.startMs + MINUTE_MS;
        if x < l.startMs {
          WithinSplit(attempts, x, l.startMs, x + MINUTE_MS);
          WithinWider(attempts, x, l.startMs, l.startMs - MINUTE_MS, l.startMs);
          WithinWider(attempts, l.startMs, x + MINUTE_MS, l.startMs, end);
        } else {
          WithinSplit(attempts, x, end, x + MINUTE_MS);
          WithinNone(attempts, end, x + MINUTE_MS);
          WithinWider(attempts, x, end, l.startMs, end);
        }
      }
    }
  }

  lemma {:induction false} LimitsAlways(limit: nat, times: seq<nat>)
    requires Monotone(times)
    ensures Limits(LimiterAfter(limit, times), Attempts(limit, times), limit)
    ensures times != [] ==> LimiterAfter(limit, times).startMs <= times[|times| - 1]
  {
    if times == [] {
      assert forall x: int :: InMinute([], x) == 0;
    } else {
      var n := |times| - 1;
      var init, nowMs := times[..n], times[n];
      LimitsAlways(limit, init);
      assert n > 0 ==> times[n - 1] <= times[n];
      RequestLimits(LimiterAfter(limit, init), Attempts(limit, init), limit, nowMs);
      hide Limits, After, Admits, Monotone;
    }
  }

  /** One request more, let through or not. */
  lemma RequestLimits(l: Limiter, attempts: seq<nat>, limit: nat, nowMs: nat)
    requires Limits(l, attempts, limit) && l.startMs <= nowMs
    ensures After(l, limit, nowMs).startMs <= nowMs
    ensures Limits(After(l, limit, nowMs), attempts + (if Admits(l, limit, nowMs) then [nowMs] else []), limit)
  {
    hide Limits;
    RolledLimits(l, attempts, limit, nowMs);
    assert attempts + [] == attempts;
    if Admits(l, limit, nowMs) { AttemptLimits(Rolled(l, nowMs), attempts, limit, nowMs); }
  }

  /** No half-open minute, wherever it starts, sees more than twice the limit. */
  lemma AtMostTwicePerMinute(limit: nat, times: seq<nat>, x: int)
    requires Monotone(times)
    ensures InMinute(Attempts(limit, times), x) <= 2 * limit
  {
    LimitsAlways(limit, times);
  }

  // ---- Twice the limit is reached ----

  function Repeated(t: nat, k: nat): seq<nat> {
    if k == 0 then [] else Repeated(t, k - 1) + [t]
  }

  lemma {:induction false} Filled(limit: nat, times: seq<nat>, t: nat, k: nat)
    requires k > 0 && k <= limit
    requires Rolled(LimiterAfter(limit, times), t).count == 0
    ensures var after := times + Repeated(t, k);
            && LimiterAfter(limit, after) == Rolled(LimiterAfter(limit, times), t).(count := k)
            && Attempts(limit, after) == Attempts(limit, times) + Repeated(t, k)
  {
    var after := times + Repeated(t, k);
    assert after[..|after| - 1] == times + Repeated(t, k - 1);
    if k == 1 {
      assert times + Repeated(t, 0) == times;
      assert Repeated(t, 1) == [t];
    } else {
      Filled(limit, times, t, k - 1);
      assert Attempts(limit, times) + Repeated(t, k - 1) + [t] == Attempts(limit, times) + Repeated(t, k);
    }
  }

  lemma NoneRepeated(times: seq<nat>, t: nat)
    ensures times + Repeated(t, 0) == times
  {
  }

  lemma OneMoreRepeated(times: seq<nat>, t: nat, k: nat)
    requires k > 0
    ensures times + Repeated(t, k) == times + Repeated(t, k - 1) + [t]
  {
    var init := Repeated(t, k - 1);
    assert Repeated(t, k) == init + [t];
    hide Repeated;
    assert times + (init + [t]) == times + init + [t];
  }

  lemma {:induction false} WithinRepeated(times: seq<nat>, t: nat, k: nat, lo: int, hi: int)
    requires lo <= t < hi
    ensures Within(times + Repeated(t, k), lo, hi) == Within(times, lo, hi) + k
  {
    hide Within, Repeated;
    if k == 0 {
      NoneRepeated(times, t);
    } else {
      OneMoreRepeated(times, t, k);
      WithinRepeated(times, t, k - 1, lo, hi);
      WithinSnoc(times + Repeated(t, k - 1), t, lo, hi);
    }
  }

  lemma {:induction false} RepeatedAre(t: nat, k: nat)
    ensures |Repeated(t, k)| == k && forall i :: 0 <= i < k ==> Repeated(t, k)[i] == t
  {
    if k > 0 { RepeatedAre(t, k - 1); }
  }

  /** A run of requests at one moment, after a window that has nothing in it. */
  lemma FilledWithin(limit: nat, times: seq<nat>, t: nat, lo: int)
    requires limit > 0 && Rolled(LimiterAfter(limit, times), t).count == 0 && lo <= t < lo + MINUTE_MS
    ensures var after := times + Repeated(t, limit);
            && LimiterAfter(limit, after) == Rolled(LimiterAfter(limit, times), t).(count := limit)
            && InMinute(Attempts(limit, after), lo) == InMinute(Attempts(limit, times), lo) + limit
  {
    Filled(limit, times, t, limit);
    WithinRepeated(Attempts(limit, times), t, limit, lo, lo + MINUTE_MS);
    hide Within, LimiterAfter, Attempts, Repeated;
  }

  lemma NoRequests(limit: nat, none: seq<nat>, x: int)
    requires none == []
    ensures LimiterAfter(limit, none) == NEW_LIMITER && InMinute(Attempts(limit, none), x) == 0
  {
  }

  /** For every limit some run reaches the bound: the window turns over in the middle of the minute. */
  lemma TwicePerMinuteIsTight(limit: nat) returns (times: seq<nat>)
    requires limit > 0
    ensures Monotone(times) && InMinute(Attempts(limit, times), 59_999) == 2 * limit
  {
    var none: seq<nat>, first: seq<nat>, second: seq<nat> := [], Repeated(59_999, limit), Repeated(60_000, limit);
    times := first + second;
    RepeatedAre(59_999, limit);
    RepeatedAre(60_000, limit);
    TwoBursts(first, second, 59_999, 60_000);
    NoRequests(limit, none, 59_999);
    hide InMinute, LimiterAfter, Attempts, Repeated, Monotone;
    FilledWithin(limit, none, 59_999, 59_999);
    NothingBefore(none, first);
    FilledWithin(limit, first, 60_000, 59_999);
  }

  lemma TwoBursts(a: seq<nat>, b: seq<nat>, t: nat, u: nat)
    requires t <= u && (forall i :: 0 <= i < |a| ==> a[i] == t) && forall i :: 0 <= i < |b| ==> b[i] == u
    ensures Monotone(a + b)
  {
  }

  lemma NothingBefore(none: seq<nat>, a: seq<nat>)
    requires none == []
    ensures none + a == a
  {
  }
}
