/** For which rules `critical_windows` means critical hits in a row. */
module CriticalWindows {
  import opened Sequences
  import opened Events
  import opened AlarmRule
  import opened AlarmHistory

  ghost predicate LastAreCritical(rule: Rule, samples: seq<Sample>, k: nat) {
    k <= |samples| && forall i :: |samples| - k <= i < |samples| ==> CriticalHit(rule, samples[i])
  }

  /** The last sample makes the alarm Critical by its value, not by a trigger. */
  predicate EndsCritical(rule: Rule, cooldownMs: nat, samples: seq<Sample>) {
    && samples != [] && EventAt(rule, cooldownMs, samples, |samples| - 1) == Some(Critical)
    && !samples[|samples| - 1].criticalTrigger
  }

  ghost predicate AlwaysInARow(rule: Rule, cooldownMs: nat) {
    forall samples | EndsCritical(rule, cooldownMs, samples) :: LastAreCritical(rule, samples, rule.criticalWindows)
  }

  // ---- Rules for which they are in a row ----

  /** When one recovered sample ends the alarm, none leaves it raised. */
  lemma NeverInProgress(rule: Rule, cooldownMs: nat, samples: seq<Sample>, i: nat)
    requires rule.recoveryWindows <= 1 && i < |samples|
    ensures !InProgress(rule, cooldownMs, samples, i)
  {
    AfterStep(rule, cooldownMs, samples[..i + 1]);
    assert samples[..i + 1][..i] == samples[..i];
    hide After, EventAt;
  }

  lemma {:induction false} HitsAtMost(rule: Rule, samples: seq<Sample>)
    ensures CriticalHits(rule, samples) <= |samples|
  {
    if samples != [] { HitsAtMost(rule, samples[..|samples| - 1]); }
  }

  lemma InARow(rule: Rule, cooldownMs: nat, samples: seq<Sample>)
    requires rule.criticalWindows <= 1 || rule.recoveryWindows <= 1
    requires EndsCritical(rule, cooldownMs, samples)
    ensures LastAreCritical(rule, samples, rule.criticalWindows)
  {
    hide After, EventAt, CriticalHit, CriticalHits, InProgress;
    var m, count := CriticalEndsRun(rule, cooldownMs, samples);
    if rule.criticalWindows > 1 {
      HitsAtMost(rule, samples[m..]);
      forall i | m <= i < |samples| ensures CriticalHit(rule, samples[i]) {
        NeverInProgress(rule, cooldownMs, samples, i);
      }
    }
  }

  // ---- Rules for which they need not be ----

  /** A sample that warns by its trigger alone, one that is a critical hit by its value alone, and a recovered one. */
  function Warns(rule: Rule): (s: Sample)
    ensures Hit(rule, s) && !CriticalHit(rule, s) && s.warningTrigger
  {
    Sample(if rule.greaterOrEqual then rule.critical - 1.0 else rule.critical + 1.0, true, false, false, 1)
  }

  function Hits(rule: Rule): (s: Sample)
    ensures CriticalHit(rule, s) && !s.criticalTrigger
  {
    Sample(rule.critical, false, false, false, 1)
  }

  function Lower(a: real, b: real): real {
    if a < b then a else b
  }

  function Recovers(rule: Rule): (s: Sample)
    ensures Recovering(rule, s) && !CriticalHit(rule, s)
  {
    var value :=
      if rule.greaterOrEqual then Lower(rule.recovery, Lower(rule.warning, rule.critical) - 1.0)
      else -Lower(-rule.recovery, Lower(-rule.warning, -rule.critical) - 1.0);
    Sample(value, false, false, false, 1)
  }

  /** A warning, and k critical hits after it. */
  function WarnedThenHit(rule: Rule, k: nat): (samples: seq<Sample>)
    ensures |samples| == k + 1
  {
    [Warns(rule)] + seq(k, _ => Hits(rule))
  }

  lemma {:induction false} StillAlert(rule: Rule, cooldownMs: nat, k: nat)
    requires k < rule.criticalWindows
    ensures var c := After(rule, cooldownMs, WarnedThenHit(rule, k));
            c.state == Alert && c.criticalHitCount == k && c.recoveryCount == 0
  {
    var samples := WarnedThenHit(rule, k);
    AfterStep(rule, cooldownMs, samples);
    if k == 0 {
      assert samples == [Warns(rule)] && samples[..0] == [];
    } else {
      assert samples[..k] == WarnedThenHit(rule, k - 1) && samples[k] == Hits(rule);
      StillAlert(rule, cooldownMs, k - 1);
      hide After;
    }
  }

  /** All but one of the critical hits, a recovered sample, and the last critical hit. */
  function Interrupted(rule: Rule): (samples: seq<Sample>)
    requires rule.criticalWindows >= 1
  {
    WarnedThenHit(rule, rule.criticalWindows - 1) + [Recovers(rule)] + [Hits(rule)]
  }

  lemma InterruptedEndsCritical(rule: Rule, cooldownMs: nat)
    requires rule.criticalWindows >= 2 && rule.recoveryWindows >= 2
    ensures EndsCritical(rule, cooldownMs, Interrupted(rule))
    ensures !LastAreCritical(rule, Interrupted(rule), rule.criticalWindows)
  {
    var samples, n := Interrupted(rule), rule.criticalWindows;
    StillAlert(rule, cooldownMs, n - 1);
    assert samples[..n] == WarnedThenHit(rule, n - 1) && samples[n] == Recovers(rule) && samples[n + 1] == Hits(rule);
    assert samples[..n + 1][..n] == samples[..n];
    AfterStep(rule, cooldownMs, samples[..n + 1]);
    AfterStep(rule, cooldownMs, samples);
    hide After, Interrupted, WarnedThenHit, Warns, Hits, Recovers;
  }

  /**
    Every Critical that no trigger forced ends `critical_windows` critical hits in a row, in all streams, exactly when
    one critical hit is enough or one recovered sample ends the alarm.
  */
  lemma InARowExactly(rule: Rule, cooldownMs: nat)
    ensures AlwaysInARow(rule, cooldownMs) <==> rule.criticalWindows <= 1 || rule.recoveryWindows <= 1
  {
    if rule.criticalWindows <= 1 || rule.recoveryWindows <= 1 {
      forall samples | EndsCritical(rule, cooldownMs, samples)
        ensures LastAreCritical(rule, samples, rule.criticalWindows)
      {
        InARow(rule, cooldownMs, samples);
      }
    } else {
      InterruptedEndsCritical(rule, cooldownMs);
    }
  }
}
