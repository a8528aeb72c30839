/** How long an alarm can wait: from runs of samples to the state they leave behind. */
module AlarmDeadlines {
  import opened Sequences
  import opened Events
  import opened AlarmRule
  import opened AlarmHistory
  import opened CriticalWindows

  /** A window of zero samples asks for one, as every other does for its own number. */
  function AtLeastOne(windows: nat): nat {
    if windows == 0 then 1 else windows
  }

  lemma LastOf(samples: seq<Sample>, k: nat)
    requires 0 < k <= |samples|
    ensures forall i :: |samples| - k <= i < |samples| - 1 ==> samples[..|samples| - 1][i] == samples[i]
  {
  }

  // ---- Critical hits ----

  lemma {:induction false} CriticalHitsCount(rule: Rule, cooldownMs: nat, samples: seq<Sample>, k: nat)
    requires LastAreCritical(rule, samples, k)
    ensures After(rule, cooldownMs, samples).criticalHitCount >= k
  {
    if k > 0 {
      LastOf(samples, k);
      CriticalHitsCount(rule, cooldownMs, samples[..|samples| - 1], k - 1);
      hide CriticalHit;
    }
  }

  /** critical_windows consecutive critical hits leave the alarm Critical, whatever came before. */
  lemma CriticalInTime(rule: Rule, cooldownMs: nat, samples: seq<Sample>)
    requires LastAreCritical(rule, samples, AtLeastOne(rule.criticalWindows))
    ensures After(rule, cooldownMs, samples).state == Severe
  {
    CriticalHitsCount(rule, cooldownMs, samples, AtLeastOne(rule.criticalWindows));
    AfterStep(rule, cooldownMs, samples);
    hide After, CriticalHit;
  }

  // ---- Hits ----

  lemma {:induction false} HitsCount(rule: Rule, cooldownMs: nat, samples: seq<Sample>, k: nat)
    requires LastAreHits(rule, samples, k)
    ensures After(rule, cooldownMs, samples).hitCount >= k
  {
    if k > 0 {
      LastOf(samples, k);
      HitsCount(rule, cooldownMs, samples[..|samples| - 1], k - 1);
      hide Hit;
    }
  }

  /** A hit leaves a raised alarm raised, and one that is not critical raises it when the window is full. */
  lemma HitRaises(rule: Rule, cooldownMs: nat, c: Context, s: Sample)
    requires Hit(rule, s)
    requires || c.state != Normal
             || (!CriticalHit(rule, s) && (s.warningTrigger || c.hitCount + 1 >= rule.warningWindows))
    ensures Evaluate(rule, cooldownMs, c, s).context.state != Normal
  {
  }

  lemma {:induction false} HitsKeepRaised(rule: Rule, cooldownMs: nat, samples: seq<Sample>, n: nat)
    requires n <= |samples| && LastAreHits(rule, samples, |samples| - n)
    requires After(rule, cooldownMs, samples[..n]).state != Normal
    ensures After(rule, cooldownMs, samples).state != Normal
  {
    if n == |samples| {
      assert samples[..n] == samples;
    } else {
      var init := samples[..|samples| - 1];
      LastOf(samples, |samples| - n);
      assert init[..n] == samples[..n];
      HitsKeepRaised(rule, cooldownMs, init, n);
      AfterStep(rule, cooldownMs, samples);
      HitRaises(rule, cooldownMs, After(rule, cooldownMs, init), samples[|samples| - 1]);
      hide After, Evaluate, Hit, CriticalHit;
    }
  }

  /** Some value is a hit and no critical one. */
  predicate WarnsFirst(rule: Rule) {
    if rule.greaterOrEqual then rule.warning < rule.critical else rule.warning > rule.critical
  }

  /** How many consecutive hits are enough. */
  function HitsEnough(rule: Rule): nat {
    if WarnsFirst(rule) then AtLeastOne(rule.warningWindows) + AtLeastOne(rule.criticalWindows) - 1
    else AtLeastOne(rule.criticalWindows)
  }

  /** A hit that is not critical and is forced, or comes late enough in a run of hits, raises the alarm. */
  lemma LateHitRaises(rule: Rule, cooldownMs: nat, samples: seq<Sample>, k: nat, i: nat)
    requires LastAreHits(rule, samples, k) && |samples| - k <= i < |samples| && !CriticalHit(rule, samples[i])
    requires samples[i].warningTrigger || i + 1 - (|samples| - k) >= rule.warningWindows
    ensures After(rule, cooldownMs, samples).state != Normal
  {
    var before, upTo := samples[..i], samples[..i + 1];
    assert upTo[..i] == before && upTo[i] == samples[i];
    assert LastAreHits(rule, before, i - (|samples| - k)) by {
      assert forall j :: 0 <= j < i ==> before[j] == samples[j];
    }
    HitsCount(rule, cooldownMs, before, i - (|samples| - k));
    AfterStep(rule, cooldownMs, upTo);
    HitRaises(rule, cooldownMs, After(rule, cooldownMs, before), samples[i]);
    hide After, Evaluate, Hit, CriticalHit;
    HitsKeepRaised(rule, cooldownMs, samples, i + 1);
  }

  lemma RaisedInTime(rule: Rule, cooldownMs: nat, samples: seq<Sample>)
    requires LastAreHits(rule, samples, HitsEnough(rule))
    ensures After(rule, cooldownMs, samples).state != Normal
  {
    var n, k := |samples|, AtLeastOne(rule.criticalWindows);
    if LastAreCritical(rule, samples, k) {
      CriticalInTime(rule, cooldownMs, samples);
    } else {
      var i :| n - k <= i < n && !CriticalHit(rule, samples[i]);
      assert Hit(rule, samples[i]) && (!WarnsFirst(rule) ==> samples[i].warningTrigger);
      hide CriticalHit, Hit, After;
      LateHitRaises(rule, cooldownMs, samples, HitsEnough(rule), i);
    }
  }

  /** A run whose last hit is not critical needs no more than its own window. */
  lemma WarningInTime(rule: Rule, cooldownMs: nat, samples: seq<Sample>)
    requires LastAreHits(rule, samples, AtLeastOne(rule.warningWindows))
    requires !CriticalHit(rule, samples[|samples| - 1])
    ensures After(rule, cooldownMs, samples).state != Normal
  {
    hide CriticalHit, Hit, After;
    LateHitRaises(rule, cooldownMs, samples, AtLeastOne(rule.warningWindows), |samples| - 1);
  }

  // ---- Exactly when a Warning is said ----

  /** Every Warning or Critical so far is at least a cooldown before nowMs. */
  ghost predicate AllCooled(rule: Rule, cooldownMs: nat, samples: seq<Sample>, n: nat, nowMs: nat)
    requires n <= |samples|
  {
    forall i :: 0 <= i < n && Activation(EventAt(rule, cooldownMs, samples, i)) ==>
      nowMs - samples[i].nowMs >= cooldownMs
  }

  /** What the context remembers of the cooldown is what the stream says. */
  lemma CooldownMeans(rule: Rule, cooldownMs: nat, samples: seq<Sample>)
    requires Monotone(samples) && samples != []
    ensures var n := |samples| - 1;
            CooldownActive(cooldownMs, After(rule, cooldownMs, samples[..n]), samples[n].nowMs)
            <==> !AllCooled(rule, cooldownMs, samples, n, samples[n].nowMs)
  {
    var n := |samples| - 1;
    var c, nowMs := After(rule, cooldownMs, samples[..n]), samples[n].nowMs;
    ActivationRemembered(rule, cooldownMs, samples[..n]);
    RememberedWasActivated(rule, cooldownMs, samples[..n]);
    hide EventAt, After;
    forall i | 0 <= i < n
      ensures samples[..n][i] == samples[i]
              && EventAt(rule, cooldownMs, samples[..n], i) == EventAt(rule, cooldownMs, samples, i)
    {
      EventAtPrefix(rule, cooldownMs, samples, n, i);
    }
    assert n > 0 ==> samples[n - 1].nowMs <= nowMs;
  }

  /** When the alarm says Warning, by the state and the hit counter that the samples before have left. */
  lemma WarningNow(rule: Rule, cooldownMs: nat, samples: seq<Sample>)
    requires samples != []
    ensures var n := |samples| - 1;
            var c, s := After(rule, cooldownMs, samples[..n]), samples[n];
            EventAt(rule, cooldownMs, samples, n) == Some(Warning)
            <==> && c.state == Normal && Hit(rule, s) && !CriticalHit(rule, s)
                 && (s.warningTrigger || c.hitCount + 1 >= rule.warningWindows)
                 && !CooldownActive(cooldownMs, c, s.nowMs)
  {
    AfterStep(rule, cooldownMs, samples);
  }

  /** In Normal, the hit counter is full exactly when the last warning_windows samples are hits. */
  lemma WindowIsFull(rule: Rule, cooldownMs: nat, samples: seq<Sample>)
    requires samples != [] && Hit(rule, samples[|samples| - 1])
    requires After(rule, cooldownMs, samples[..|samples| - 1]).state == Normal
    ensures After(rule, cooldownMs, samples[..|samples| - 1]).hitCount + 1 >= rule.warningWindows
       <==> LastAreHits(rule, samples, rule.warningWindows)
  {
    var n, k := |samples| - 1, rule.warningWindows;
    var c := After(rule, cooldownMs, samples[..n]);
    HitCounter(rule, cooldownMs, samples[..n]);
    hide After, Hit;
    if c.hitCount + 1 >= k { OneMoreHit(rule, samples, c.hitCount); }
    if LastAreHits(rule, samples, k) && k > 0 {
      LastOf(samples, k);
      HitsCount(rule, cooldownMs, samples[..n], k - 1);
    }
  }

  /**
    On a positive monotone clock the alarm says Warning exactly when it was Normal, the sample is a hit and no critical
    one, it is triggered or ends warning_windows hits, and every earlier Warning or Critical is a full cooldown ago.
  */
  lemma WarningExactly(rule: Rule, cooldownMs: nat, samples: seq<Sample>)
    requires Monotone(samples) && samples != []
    ensures var n := |samples| - 1;
            EventAt(rule, cooldownMs, samples, n) == Some(Warning)
            <==> && After(rule, cooldownMs, samples[..n]).state == Normal
                 && Hit(rule, samples[n]) && !CriticalHit(rule, samples[n])
                 && (samples[n].warningTrigger || LastAreHits(rule, samples, rule.warningWindows))
                 && forall i :: 0 <= i < n && Activation(EventAt(rule, cooldownMs, samples, i)) ==>
                      samples[n].nowMs - samples[i].nowMs >= cooldownMs
  {
    WarningNow(rule, cooldownMs, samples);
    CooldownMeans(rule, cooldownMs, samples);
    var n := |samples| - 1;
    if Hit(rule, samples[n]) && After(rule, cooldownMs, samples[..n]).state == Normal {
      WindowIsFull(rule, cooldownMs, samples);
    }
    hide EventAt, After, Hit, CriticalHit, CooldownActive, LastAreHits, Monotone;
  }

  // ---- Exactly when a Recovery is said ----

  lemma RecoveryNow(rule: Rule, cooldownMs: nat, samples: seq<Sample>)
    requires samples != []
    ensures var n := |samples| - 1;
            var c, s := After(rule, cooldownMs, samples[..n]), samples[n];
            EventAt(rule, cooldownMs, samples, n) == Some(Recovery)
            <==> && c.state != Normal && c.notificationActive && Recovering(rule, s)
                 && c.recoveryCount + 1 >= rule.recoveryWindows
  {
    AfterStep(rule, cooldownMs, samples);
  }

  /** Recovery is said exactly when the alarm was raised and announced, and recovery_windows recovered samples end. */
  lemma RecoveryExactly(rule: Rule, cooldownMs: nat, samples: seq<Sample>)
    requires samples != []
    ensures var n := |samples| - 1;
            var c := After(rule, cooldownMs, samples[..n]);
            EventAt(rule, cooldownMs, samples, n) == Some(Recovery)
            <==> && c.state != Normal && c.notificationActive && Recovering(rule, samples[n])
                 && LastAreRecovering(rule, samples, rule.recoveryWindows)
  {
    var n, k := |samples| - 1, rule.recoveryWindows;
    var c := After(rule, cooldownMs, samples[..n]);
    RecoveryNow(rule, cooldownMs, samples);
    HitCounter(rule, cooldownMs, samples[..n]);
    hide After, EventAt, Recovering;
    if c.state != Normal && Recovering(rule, samples[n]) {
      if c.recoveryCount + 1 >= k { OneMoreRecovering(rule, samples, c.recoveryCount); }
      if LastAreRecovering(rule, samples, k) && k > 0 {
        LastOf(samples, k);
        RecoveringCounts(rule, cooldownMs, samples[..n], k - 1);
      }
    }
  }

  // ---- No fewer are enough ----

  function Warm(rule: Rule): Sample {
    Sample(rule.warning, false, false, false, 1)
  }

  /** One warning hit too few, and one critical hit too few after them. */
  function TooFew(rule: Rule, warnings: nat, criticals: nat): (samples: seq<Sample>)
    ensures |samples| == warnings + criticals
    ensures forall i :: 0 <= i < |samples| ==> samples[i] == if i < warnings then Warm(rule) else Hits(rule)
  {
    seq(warnings, _ => Warm(rule)) + seq(criticals, _ => Hits(rule))
  }

  lemma {:induction false} StillNormal(rule: Rule, cooldownMs: nat, warnings: nat, criticals: nat)
    requires warnings == 0 || (WarnsFirst(rule) && warnings < rule.warningWindows)
    requires criticals < rule.criticalWindows || criticals == 0
    ensures var c := After(rule, cooldownMs, TooFew(rule, warnings, criticals));
            c.state == Normal && c.hitCount == warnings + criticals && c.criticalHitCount == criticals
    decreases warnings + criticals
  {
    var samples := TooFew(rule, warnings, criticals);
    if criticals > 0 {
      assert samples[..|samples| - 1] == TooFew(rule, warnings, criticals - 1);
      AfterStep(rule, cooldownMs, samples);
      StillNormal(rule, cooldownMs, warnings, criticals - 1);
      hide After, TooFew;
    } else if warnings > 0 {
      assert samples[..|samples| - 1] == TooFew(rule, warnings - 1, criticals);
      AfterStep(rule, cooldownMs, samples);
      StillNormal(rule, cooldownMs, warnings - 1, criticals);
      hide After, TooFew;
    }
  }

  ghost predicate AlwaysRaisedBy(rule: Rule, cooldownMs: nat, k: nat) {
    forall samples | LastAreHits(rule, samples, k) :: After(rule, cooldownMs, samples).state != Normal
  }

  lemma LastAreHitsFewer(rule: Rule, samples: seq<Sample>, k: nat, fewer: nat)
    requires LastAreHits(rule, samples, k) && fewer <= k
    ensures LastAreHits(rule, samples, fewer)
  {
  }

  /**
    k consecutive hits always raise the alarm exactly when k is at least warning_windows + critical_windows - 1, or
    critical_windows where no value is a hit and no critical one.
  */
  lemma RaisedExactly(rule: Rule, cooldownMs: nat, k: nat)
    ensures AlwaysRaisedBy(rule, cooldownMs, k) <==> k >= HitsEnough(rule)
  {
    if k >= HitsEnough(rule) {
      forall samples | LastAreHits(rule, samples, k) ensures After(rule, cooldownMs, samples).state != Normal {
        LastAreHitsFewer(rule, samples, k, HitsEnough(rule));
        RaisedInTime(rule, cooldownMs, samples);
      }
    } else {
      var w := if WarnsFirst(rule) then AtLeastOne(rule.warningWindows) - 1 else 0;
      var c := AtLeastOne(rule.criticalWindows) - 1;
      var samples := TooFew(rule, w, c);
      StillNormal(rule, cooldownMs, w, c);
      assert LastAreHits(rule, samples, k);
    }
  }

  // ---- Recovery ----

  lemma {:induction false} RecoveringCounts(rule: Rule, cooldownMs: nat, samples: seq<Sample>, k: nat)
    requires LastAreRecovering(rule, samples, k)
    ensures var c := After(rule, cooldownMs, samples);
            (c.state == Normal && k > 0) || c.recoveryCount >= k
  {
    if k > 0 {
      LastOf(samples, k);
      RecoveringCounts(rule, cooldownMs, samples[..|samples| - 1], k - 1);
    }
  }

  /** recovery_windows consecutive unblocked recovered samples end the alarm. */
  lemma RecoveredInTime(rule: Rule, cooldownMs: nat, samples: seq<Sample>)
    requires LastAreRecovering(rule, samples, AtLeastOne(rule.recoveryWindows))
    ensures After(rule, cooldownMs, samples).state == Normal
  {
    var n, k := |samples| - 1, AtLeastOne(rule.recoveryWindows);
    LastOf(samples, k);
    RecoveringCounts(rule, cooldownMs, samples[..n], k - 1);
    AfterStep(rule, cooldownMs, samples);
    hide After;
  }
}
