/** The counters of an alarm against the whole history of its samples: window counting and cooldown. */
module AlarmHistory {
  import opened Sequences
  import opened Events
  import opened AlarmRule

  // ---- Windows ----

  ghost predicate LastAreHits(rule: Rule, samples: seq<Sample>, k: nat) {
    k <= |samples| && forall i :: |samples| - k <= i < |samples| ==> Hit(rule, samples[i])
  }

  predicate Recovering(rule: Rule, s: Sample) {
    !Hit(rule, s) && Recovered(rule, s)
  }

  ghost predicate LastAreRecovering(rule: Rule, samples: seq<Sample>, k: nat) {
    k <= |samples| && forall i :: |samples| - k <= i < |samples| ==> Recovering(rule, samples[i])
  }

  /** A recovered sample that leaves the alarm raised. */
  ghost predicate InProgress(rule: Rule, cooldownMs: nat, samples: seq<Sample>, i: nat)
    requires i < |samples|
  {
    && Recovering(rule, samples[i])
    && After(rule, cooldownMs, samples[..i]).state != Normal
    && After(rule, cooldownMs, samples[..i + 1]).state != Normal
  }

  function CriticalHits(rule: Rule, samples: seq<Sample>): nat {
    if samples == [] then 0
    else CriticalHits(rule, samples[..|samples| - 1]) + if CriticalHit(rule, samples[|samples| - 1]) then 1 else 0
  }

  /** From m on there are only critical hits, `count` of them, and recoveries in progress. */
  ghost predicate CriticalRun(rule: Rule, cooldownMs: nat, samples: seq<Sample>, m: nat, count: nat) {
    && m <= |samples| && CriticalHits(rule, samples[m..]) == count
    && forall i :: m <= i < |samples| ==> CriticalHit(rule, samples[i]) || InProgress(rule, cooldownMs, samples, i)
  }

  /** How one sample moves the counters. */
  lemma EvaluateCounts(rule: Rule, cooldownMs: nat, c: Context, s: Sample)
    ensures var d := Evaluate(rule, cooldownMs, c, s).context;
            && (d.state == Normal ==>
                  d.hitCount == 0 || (c.state == Normal && Hit(rule, s) && d.hitCount == c.hitCount + 1))
            && (d.state != Normal ==>
                  d.recoveryCount == 0
                  || (c.state != Normal && Recovering(rule, s) && d.recoveryCount == c.recoveryCount + 1))
            && d.criticalHitCount
               == if CriticalHit(rule, s) then c.criticalHitCount + 1
                  else if Recovering(rule, s) && c.state != Normal && d.state != Normal then c.criticalHitCount
                  else 0
  {
  }

  /** What the samples before an event must have brought about. */
  lemma EvaluateReasons(rule: Rule, cooldownMs: nat, c: Context, s: Sample)
    ensures var event := Evaluate(rule, cooldownMs, c, s).event;
            && (event == Some(Warning) ==>
                  c.state == Normal && Hit(rule, s) && !CriticalHit(rule, s)
                  && (s.warningTrigger || c.hitCount + 1 >= rule.warningWindows))
            && (event == Some(Recovery) ==>
                  c.state != Normal && Recovering(rule, s) && c.recoveryCount + 1 >= rule.recoveryWindows)
            && (event == Some(Critical) ==>
                  CriticalHit(rule, s) && (s.criticalTrigger || c.criticalHitCount + 1 >= rule.criticalWindows))
  {
  }

  lemma AfterStep(rule: Rule, cooldownMs: nat, samples: seq<Sample>)
    requires samples != []
    ensures var n := |samples| - 1;
            Verdict(After(rule, cooldownMs, samples), EventAt(rule, cooldownMs, samples, n))
            == Evaluate(rule, cooldownMs, After(rule, cooldownMs, samples[..n]), samples[n])
  {
  }

  lemma OneMoreHit(rule: Rule, samples: seq<Sample>, k: nat)
    requires samples != [] && LastAreHits(rule, samples[..|samples| - 1], k) && Hit(rule, samples[|samples| - 1])
    ensures LastAreHits(rule, samples, k + 1)
  {
    assert forall i :: 0 <= i < |samples| - 1 ==> samples[..|samples| - 1][i] == samples[i];
    hide Hit;
  }

  lemma OneMoreRecovering(rule: Rule, samples: seq<Sample>, k: nat)
    requires samples != [] && LastAreRecovering(rule, samples[..|samples| - 1], k)
    requires Recovering(rule, samples[|samples| - 1])
    ensures LastAreRecovering(rule, samples, k + 1)
  {
    assert forall i :: 0 <= i < |samples| - 1 ==> samples[..|samples| - 1][i] == samples[i];
    hide Recovering;
  }

  lemma {:induction false} HitCounter(rule: Rule, cooldownMs: nat, samples: seq<Sample>)
    ensures var c := After(rule, cooldownMs, samples);
            && (c.state == Normal ==> LastAreHits(rule, samples, c.hitCount))
            && (c.state != Normal ==> LastAreRecovering(rule, samples, c.recoveryCount))
  {
    if samples != [] {
      var n := |samples| - 1;
      HitCounter(rule, cooldownMs, samples[..n]);
      var before, after := After(rule, cooldownMs, samples[..n]), After(rule, cooldownMs, samples);
      AfterStep(rule, cooldownMs, samples);
      EvaluateCounts(rule, cooldownMs, before, samples[n]);
      hide Evaluate, After, Hit, Recovering, CriticalHit;
      if after.state == Normal && after.hitCount != 0 { OneMoreHit(rule, samples, before.hitCount); }
      if after.state != Normal && after.recoveryCount != 0 { OneMoreRecovering(rule, samples, before.recoveryCount); }
    }
  }

  lemma {:induction false} CriticalCounter(rule: Rule, cooldownMs: nat, samples: seq<Sample>) returns (m: nat)
    ensures CriticalRun(rule, cooldownMs, samples, m, After(rule, cooldownMs, samples).criticalHitCount)
  {
    if samples == [] { return 0; }
    var n := |samples| - 1;
    m := CriticalCounter(rule, cooldownMs, samples[..n]);
    var before, after := After(rule, cooldownMs, samples[..n]), After(rule, cooldownMs, samples);
    AfterStep(rule, cooldownMs, samples);
    EvaluateCounts(rule, cooldownMs, before, samples[n]);
    hide Evaluate, After, EventAt;
    var inProgress := Recovering(rule, samples[n]) && before.state != Normal && after.state != Normal;
    if CriticalHit(rule, samples[n]) || inProgress {
      LongerRun(rule, cooldownMs, samples, m, before.criticalHitCount);
    } else {
      m := |samples|;
    }
  }

  lemma LongerRun(rule: Rule, cooldownMs: nat, samples: seq<Sample>, m: nat, count: nat)
    requires samples != [] && CriticalRun(rule, cooldownMs, samples[..|samples| - 1], m, count)
    requires CriticalHit(rule, samples[|samples| - 1])
             || (&& Recovering(rule, samples[|samples| - 1])
                 && After(rule, cooldownMs, samples[..|samples| - 1]).state != Normal
                 && After(rule, cooldownMs, samples).state != Normal)
    ensures CriticalRun(rule, cooldownMs, samples, m,
                        count + if CriticalHit(rule, samples[|samples| - 1]) then 1 else 0)
  {
    hide CriticalHit, CriticalHits, InProgress, Recovering, After;
    var init := samples[..|samples| - 1];
    OneMoreInRun(rule, samples, m);
    forall i | m <= i < |samples|
      ensures CriticalHit(rule, samples[i]) || InProgress(rule, cooldownMs, samples, i)
    {
      if i < |samples| - 1 {
        SameInPrefix(rule, cooldownMs, samples, i);
        assert CriticalHit(rule, init[i]) || InProgress(rule, cooldownMs, init, i);
      } else {
        LastInProgress(rule, cooldownMs, samples);
      }
    }
  }

  lemma LastInProgress(rule: Rule, cooldownMs: nat, samples: seq<Sample>)
    requires samples != []
    ensures InProgress(rule, cooldownMs, samples, |samples| - 1)
       <==> && Recovering(rule, samples[|samples| - 1])
            && After(rule, cooldownMs, samples[..|samples| - 1]).state != Normal
            && After(rule, cooldownMs, samples).state != Normal
  {
    assert samples[..|samples|] == samples;
    hide Recovering, After;
  }

  lemma SameInPrefix(rule: Rule, cooldownMs: nat, samples: seq<Sample>, i: nat)
    requires i < |samples| - 1
    ensures samples[..|samples| - 1][i] == samples[i]
    ensures InProgress(rule, cooldownMs, samples[..|samples| - 1], i) == InProgress(rule, cooldownMs, samples, i)
  {
    var init := samples[..|samples| - 1];
    assert init[..i] == samples[..i] && init[..i + 1] == samples[..i + 1];
    hide Recovering, After;
  }

  lemma OneMoreInRun(rule: Rule, samples: seq<Sample>, m: nat)
    requires m < |samples|
    ensures var n := |samples| - 1;
            CriticalHits(rule, samples[m..])
            == CriticalHits(rule, samples[..n][m..]) + if CriticalHit(rule, samples[n]) then 1 else 0
  {
    assert samples[m..][..|samples| - 1 - m] == samples[..|samples| - 1][m..];
  }

  function AllHits(rule: Rule, samples: seq<Sample>): nat {
    if samples == [] then 0
    else AllHits(rule, samples[..|samples| - 1]) + if Hit(rule, samples[|samples| - 1]) then 1 else 0
  }

  /** What the context says of the whole stream: all its hits, its largest value, and when it was last fed. */
  lemma {:induction false} ContextRecords(rule: Rule, cooldownMs: nat, samples: seq<Sample>)
    ensures var c := After(rule, cooldownMs, samples);
            && c.totalHitCount == AllHits(rule, samples)
            && (forall i :: 0 <= i < |samples| ==> samples[i].value <= c.maxValue) && c.maxValue >= 0.0
            && (c.maxValue == 0.0 || exists i :: 0 <= i < |samples| && samples[i].value == c.maxValue)
            && (samples != [] ==> c.lastSeenMs == samples[|samples| - 1].nowMs)
  {
    if samples != [] {
      var n := |samples| - 1;
      ContextRecords(rule, cooldownMs, samples[..n]);
      AfterStep(rule, cooldownMs, samples);
      EvaluateRecords(rule, cooldownMs, After(rule, cooldownMs, samples[..n]), samples[n]);
      hide Evaluate, After, EventAt, Hit;
      assert forall i :: 0 <= i < n ==> samples[..n][i] == samples[i];
    }
  }

  lemma EvaluateRecords(rule: Rule, cooldownMs: nat, c: Context, s: Sample)
    ensures var d := Evaluate(rule, cooldownMs, c, s).context;
            && d.totalHitCount == c.totalHitCount + (if Hit(rule, s) then 1 else 0)
            && d.maxValue == (if s.value > c.maxValue then s.value else c.maxValue) && d.lastSeenMs == s.nowMs
  {
  }

  /** A Warning that no trigger forced ends a run of `warningWindows` consecutive hits. */
  lemma WarningEndsHits(rule: Rule, cooldownMs: nat, samples: seq<Sample>)
    requires samples != [] && EventAt(rule, cooldownMs, samples, |samples| - 1) == Some(Warning)
    requires !samples[|samples| - 1].warningTrigger
    ensures LastAreHits(rule, samples, rule.warningWindows) && !CriticalHit(rule, samples[|samples| - 1])
  {
    var n := |samples| - 1;
    var before := After(rule, cooldownMs, samples[..n]);
    HitCounter(rule, cooldownMs, samples[..n]);
    AfterStep(rule, cooldownMs, samples);
    EvaluateReasons(rule, cooldownMs, before, samples[n]);
    hide Evaluate, After, EventAt, Hit, CriticalHit;
    OneMoreHit(rule, samples, before.hitCount);
  }

  /** A Recovery ends a run of `recoveryWindows` consecutive unblocked recovered samples. */
  lemma RecoveryEndsRecovering(rule: Rule, cooldownMs: nat, samples: seq<Sample>)
    requires samples != [] && EventAt(rule, cooldownMs, samples, |samples| - 1) == Some(Recovery)
    ensures LastAreRecovering(rule, samples, rule.recoveryWindows)
  {
    var n := |samples| - 1;
    var before := After(rule, cooldownMs, samples[..n]);
    HitCounter(rule, cooldownMs, samples[..n]);
    AfterStep(rule, cooldownMs, samples);
    EvaluateReasons(rule, cooldownMs, before, samples[n]);
    hide Evaluate, After, EventAt, Recovering;
    OneMoreRecovering(rule, samples, before.recoveryCount);
  }

  /**
    A Critical that no trigger forced comes after `criticalWindows` critical hits with nothing but recoveries in
    progress between them: the hits need not be consecutive.
  */
  lemma CriticalEndsRun(rule: Rule, cooldownMs: nat, samples: seq<Sample>) returns (m: nat, count: nat)
    requires samples != [] && EventAt(rule, cooldownMs, samples, |samples| - 1) == Some(Critical)
    requires !samples[|samples| - 1].criticalTrigger
    ensures CriticalRun(rule, cooldownMs, samples, m, count) && count >= rule.criticalWindows
    ensures CriticalHit(rule, samples[|samples| - 1])
  {
    var n := |samples| - 1;
    m := CriticalCounter(rule, cooldownMs, samples);
    count := After(rule, cooldownMs, samples).criticalHitCount;
    AfterStep(rule, cooldownMs, samples);
    EvaluateCounts(rule, cooldownMs, After(rule, cooldownMs, samples[..n]), samples[n]);
    EvaluateReasons(rule, cooldownMs, After(rule, cooldownMs, samples[..n]), samples[n]);
    hide Evaluate, After, EventAt, CriticalRun, CriticalHit;
  }

  /** A stream whose critical hits are not consecutive and still end in a Critical. */
  lemma CriticalHitsMayBeInterrupted()
    ensures var rule := Rule(true, 10.0, 20.0, 5.0, 1, 2, 2);
            var bad, good := Sample(25.0, false, false, false, 1), Sample(1.0, false, false, false, 1);
            var warn := Sample(15.0, false, false, false, 1);
            Emitted(rule, 0, [warn, bad, good, bad]) == [Warning, Critical]
  {
    var rule := Rule(true, 10.0, 20.0, 5.0, 1, 2, 2);
    var bad, good := Sample(25.0, false, false, false, 1), Sample(1.0, false, false, false, 1);
    var warn := Sample(15.0, false, false, false, 1);
    var s := [warn, bad, good, bad];
    assert s[..3] == [warn, bad, good] && s[..2] == [warn, bad] && s[..1] == [warn] && s[..0] == [];
    assert [warn, bad, good][..2] == [warn, bad] && [warn, bad][..1] == [warn] && [warn][..0] == [];
    var c1 := Evaluate(rule, 0, FRESH, warn).context;
    assert After(rule, 0, [warn]) == c1;
    var c2 := Evaluate(rule, 0, c1, bad).context;
    assert After(rule, 0, [warn, bad]) == c2;
    var c3 := Evaluate(rule, 0, c2, good).context;
    assert After(rule, 0, [warn, bad, good]) == c3;
    assert Emitted(rule, 0, [warn]) == [Warning];
    assert Emitted(rule, 0, [warn, bad]) == [Warning];
    assert Emitted(rule, 0, [warn, bad, good]) == [Warning];
  }

  // ---- Cooldown ----

  ghost predicate Monotone(samples: seq<Sample>) {
    && (forall i :: 0 <= i < |samples| ==> samples[i].nowMs > 0)
    && forall i, j :: 0 <= i < j < |samples| ==> samples[i].nowMs <= samples[j].nowMs
  }

  predicate Activation(event: Option<Level>) {
    event == Some(Warning) || event == Some(Critical)
  }

  /** The context remembers the latest Warning or Critical. */
  ghost predicate RemembersActivation(rule: Rule, cooldownMs: nat, samples: seq<Sample>, c: Context) {
    forall i :: 0 <= i < |samples| && Activation(EventAt(rule, cooldownMs, samples, i)) ==>
      0 < samples[i].nowMs <= c.lastActivationMs
  }

  /** The latest Warning or Critical that the context remembers was really said. */
  ghost predicate WasActivated(rule: Rule, cooldownMs: nat, samples: seq<Sample>, atMs: nat) {
    exists i :: 0 <= i < |samples| && Activation(EventAt(rule, cooldownMs, samples, i)) && samples[i].nowMs == atMs
  }

  lemma {:induction false} RememberedWasActivated(rule: Rule, cooldownMs: nat, samples: seq<Sample>)
    ensures var c := After(rule, cooldownMs, samples);
            c.lastActivationMs == 0 || WasActivated(rule, cooldownMs, samples, c.lastActivationMs)
  {
    if samples != [] {
      var n := |samples| - 1;
      RememberedWasActivated(rule, cooldownMs, samples[..n]);
      AfterStep(rule, cooldownMs, samples);
      EvaluateActivates(rule, cooldownMs, After(rule, cooldownMs, samples[..n]), samples[n]);
      hide Evaluate, EventAt, After;
      if !Activation(EventAt(rule, cooldownMs, samples, n)) && After(rule, cooldownMs, samples).lastActivationMs != 0 {
        ActivatedLonger(rule, cooldownMs, samples, After(rule, cooldownMs, samples).lastActivationMs);
      }
    }
  }

  lemma ActivatedLonger(rule: Rule, cooldownMs: nat, samples: seq<Sample>, atMs: nat)
    requires samples != [] && WasActivated(rule, cooldownMs, samples[..|samples| - 1], atMs)
    ensures WasActivated(rule, cooldownMs, samples, atMs)
  {
    var n := |samples| - 1;
    hide EventAt;
    var i :| 0 <= i < n && Activation(EventAt(rule, cooldownMs, samples[..n], i)) && samples[..n][i].nowMs == atMs;
    EventAtPrefix(rule, cooldownMs, samples, n, i);
    assert samples[..n][i] == samples[i];
  }

  lemma EventAtPrefix(rule: Rule, cooldownMs: nat, samples: seq<Sample>, n: nat, i: nat)
    requires i < n <= |samples|
    ensures EventAt(rule, cooldownMs, samples[..n], i) == EventAt(rule, cooldownMs, samples, i)
  {
    assert samples[..n][..i] == samples[..i];
  }

  lemma EvaluateActivates(rule: Rule, cooldownMs: nat, c: Context, s: Sample)
    ensures var v := Evaluate(rule, cooldownMs, c, s);
            v.context.lastActivationMs == if Activation(v.event) then s.nowMs else c.lastActivationMs
  {
  }

  lemma {:induction false} ActivationRemembered(rule: Rule, cooldownMs: nat, samples: seq<Sample>)
    requires Monotone(samples)
    ensures var c := After(rule, cooldownMs, samples);
            RemembersActivation(rule, cooldownMs, samples, c)
            && (samples != [] ==> c.lastActivationMs <= samples[|samples| - 1].nowMs)
            && (samples == [] ==> c.lastActivationMs == 0)
  {
    if samples != [] {
      var n := |samples| - 1;
      ActivationRemembered(rule, cooldownMs, samples[..n]);
      AfterStep(rule, cooldownMs, samples);
      EvaluateActivates(rule, cooldownMs, After(rule, cooldownMs, samples[..n]), samples[n]);
      assert n > 0 ==> samples[n - 1].nowMs <= samples[n].nowMs;
      RemembersOneMore(rule, cooldownMs, samples, After(rule, cooldownMs, samples[..n]),
                       After(rule, cooldownMs, samples));
      hide Evaluate, EventAt, After, RemembersActivation;
    }
  }

  lemma RemembersOneMore(rule: Rule, cooldownMs: nat, samples: seq<Sample>, before: Context, after: Context)
    requires samples != [] && samples[|samples| - 1].nowMs > 0
    requires RemembersActivation(rule, cooldownMs, samples[..|samples| - 1], before)
    requires before.lastActivationMs <= after.lastActivationMs
    requires Activation(EventAt(rule, cooldownMs, samples, |samples| - 1)) ==>
               after.lastActivationMs == samples[|samples| - 1].nowMs
    ensures RemembersActivation(rule, cooldownMs, samples, after)
  {
    var n := |samples| - 1;
    hide EventAt;
    forall i | 0 <= i < n && Activation(EventAt(rule, cooldownMs, samples, i))
      ensures 0 < samples[i].nowMs <= after.lastActivationMs
    {
      EventAtPrefix(rule, cooldownMs, samples, n, i);
      assert samples[..n][i] == samples[i];
    }
  }

  lemma WarningWasCool(rule: Rule, cooldownMs: nat, samples: seq<Sample>, j: nat)
    requires j < |samples| && EventAt(rule, cooldownMs, samples, j) == Some(Warning)
    ensures !CooldownActive(cooldownMs, After(rule, cooldownMs, samples[..j]), samples[j].nowMs)
  {
  }

  /** With a positive monotone clock, a Warning is a full cooldown after every earlier Warning or Critical. */
  lemma WarningsAreSpaced(rule: Rule, cooldownMs: nat, samples: seq<Sample>, i: nat, j: nat)
    requires Monotone(samples) && i < j < |samples|
    requires Activation(EventAt(rule, cooldownMs, samples, i)) && EventAt(rule, cooldownMs, samples, j) == Some(Warning)
    ensures samples[j].nowMs - samples[i].nowMs >= cooldownMs
  {
    ActivationRemembered(rule, cooldownMs, samples[..j]);
    EventAtPrefix(rule, cooldownMs, samples, j, i);
    assert samples[..j][i] == samples[i];
    WarningWasCool(rule, cooldownMs, samples, j);
    hide Evaluate, EventAt, After;
  }

  /** A critical hit whose count or trigger suffices is never silenced, whatever the cooldown. */
  lemma CriticalIsNeverSuppressed(rule: Rule, cooldownMs: nat, samples: seq<Sample>, s: Sample)
    requires CriticalHit(rule, s)
    requires s.criticalTrigger || After(rule, cooldownMs, samples).criticalHitCount + 1 >= rule.criticalWindows
    ensures EventAt(rule, cooldownMs, samples + [s], |samples|) == Some(Critical)
            <==> After(rule, cooldownMs, samples).state != Severe
  {
    assert (samples + [s])[..|samples|] == samples;
  }
}
