/** One alarm: evaluate_threshold on one rule context, and what any stream of samples can make it say. */
module AlarmRule {
  import opened Sequences
  import opened Events

  const UINT64_LIMIT: nat := 0x1_0000_0000_0000_0000

  datatype State = Normal | Alert | Severe

  datatype Context = Context(state: State, hitCount: nat, criticalHitCount: nat, recoveryCount: nat,
                             totalHitCount: nat, lastSeenMs: nat, lastActivationMs: nat, notificationActive: bool,
                             maxValue: real)

  const FRESH := Context(Normal, 0, 0, 0, 0, 0, 0, false, 0.0)

  /** greaterOrEqual says which side of a threshold is bad. */
  datatype Rule = Rule(greaterOrEqual: bool, warning: real, critical: real, recovery: real,
                       warningWindows: nat, criticalWindows: nat, recoveryWindows: nat)

  datatype Sample = Sample(value: real, warningTrigger: bool, criticalTrigger: bool, recoveryBlocked: bool, nowMs: nat)

  predicate Beyond(rule: Rule, value: real, threshold: real) {
    if rule.greaterOrEqual then value >= threshold else value <= threshold
  }

  predicate CriticalHit(rule: Rule, s: Sample) {
    Beyond(rule, s.value, rule.critical) || s.criticalTrigger
  }

  predicate Hit(rule: Rule, s: Sample) {
    CriticalHit(rule, s) || Beyond(rule, s.value, rule.warning) || s.warningTrigger
  }

  predicate Recovered(rule: Rule, s: Sample) {
    !s.recoveryBlocked && if rule.greaterOrEqual then s.value <= rule.recovery else s.value >= rule.recovery
  }

  /** Unsigned 64-bit subtraction. */
  function Elapsed(nowMs: nat, thenMs: nat): nat {
    if nowMs >= thenMs then nowMs - thenMs else (nowMs + UINT64_LIMIT - thenMs % UINT64_LIMIT) % UINT64_LIMIT
  }

  predicate CooldownActive(cooldownMs: nat, c: Context, nowMs: nat) {
    cooldownMs != 0 && c.lastActivationMs != 0 && Elapsed(nowMs, c.lastActivationMs) < cooldownMs
  }

  /** What counts as a hit, a critical hit and a recovered sample, for rules in either direction. */
  lemma HitsMean(rule: Rule, s: Sample)
    ensures rule.greaterOrEqual ==>
              && (CriticalHit(rule, s) <==> s.value >= rule.critical || s.criticalTrigger)
              && (Hit(rule, s) <==> s.value >= rule.critical || s.value >= rule.warning
                                    || s.criticalTrigger || s.warningTrigger)
              && (Recovered(rule, s) <==> s.value <= rule.recovery && !s.recoveryBlocked)
    ensures !rule.greaterOrEqual ==>
              && (CriticalHit(rule, s) <==> s.value <= rule.critical || s.criticalTrigger)
              && (Hit(rule, s) <==> s.value <= rule.critical || s.value <= rule.warning
                                    || s.criticalTrigger || s.warningTrigger)
              && (Recovered(rule, s) <==> s.value >= rule.recovery && !s.recoveryBlocked)
  {
  }

  /** The subtraction is exact on a clock that has not gone back, and wraps around 2^64 on one that has. */
  lemma ElapsedMeans(nowMs: nat, thenMs: nat)
    ensures nowMs >= thenMs ==> Elapsed(nowMs, thenMs) == nowMs - thenMs
    ensures nowMs < thenMs < 0x1_0000_0000_0000_0000 ==>
              Elapsed(nowMs, thenMs) + (thenMs - nowMs) == 0x1_0000_0000_0000_0000
  {
  }

  datatype Verdict = Verdict(context: Context, event: Option<Level>)

  function Activate(c: Context, state: State, level: Level, nowMs: nat): Verdict {
    Verdict(c.(state := state, notificationActive := true, lastActivationMs := nowMs), Some(level))
  }

  /** What evaluate_threshold leaves in the context and what it returns, branch by branch. */
  function Evaluate(rule: Rule, cooldownMs: nat, context: Context, s: Sample): Verdict {
    var c := context.(lastSeenMs := s.nowMs,
                      maxValue := if s.value > context.maxValue then s.value else context.maxValue);
    if CriticalHit(rule, s) then
      var hit := c.(hitCount := c.hitCount + 1, criticalHitCount := c.criticalHitCount + 1,
                    totalHitCount := c.totalHitCount + 1, recoveryCount := 0);
      if (s.criticalTrigger || hit.criticalHitCount >= rule.criticalWindows) && c.state != Severe
      then Activate(hit, Severe, Critical, s.nowMs)
      else Verdict(hit, None)
    else if Hit(rule, s) then
      var hit := c.(hitCount := c.hitCount + 1, totalHitCount := c.totalHitCount + 1, criticalHitCount := 0,
                    recoveryCount := 0);
      if (s.warningTrigger || hit.hitCount >= rule.warningWindows) && c.state == Normal then
        if CooldownActive(cooldownMs, hit, s.nowMs) then Verdict(hit.(state := Alert), None)
        else Activate(hit, Alert, Warning, s.nowMs)
      else Verdict(hit, None)
    else if Recovered(rule, s) && c.state != Normal then
      var back := c.(recoveryCount := c.recoveryCount + 1);
      if back.recoveryCount >= rule.recoveryWindows then
        var normal := back.(state := Normal, hitCount := 0, criticalHitCount := 0);
        if c.notificationActive then Verdict(normal.(notificationActive := false), Some(Recovery))
        else Verdict(normal, None)
      else Verdict(back, None)
    else
      Verdict(c.(hitCount := 0, criticalHitCount := 0, recoveryCount := 0), None)
  }

  /** evaluate_threshold as it runs, updating the context field by field. */
  method EvaluateThreshold(context: Context, rule: Rule, cooldownMs: nat, s: Sample)
    returns (c: Context, event: Option<Level>)
    ensures Verdict(c, event) == Evaluate(rule, cooldownMs, context, s)
  {
    c, event := context, None;
    c := c.(lastSeenMs := s.nowMs);
    if s.value > c.maxValue { c := c.(maxValue := s.value); }
    if Beyond(rule, s.value, rule.critical) || s.criticalTrigger {
      c := c.(hitCount := c.hitCount + 1);
      c := c.(criticalHitCount := c.criticalHitCount + 1);
      c := c.(totalHitCount := c.totalHitCount + 1);
      c := c.(recoveryCount := 0);
      if (s.criticalTrigger || c.criticalHitCount >= rule.criticalWindows) && c.state != Severe {
        c := c.(state := Severe);
        c := c.(notificationActive := true);
        c := c.(lastActivationMs := s.nowMs);
        return c, Some(Critical);
      }
      return c, None;
    }
    if Beyond(rule, s.value, rule.warning) || s.warningTrigger {
      c := c.(hitCount := c.hitCount + 1);
      c := c.(totalHitCount := c.totalHitCount + 1);
      c := c.(criticalHitCount := 0);
      c := c.(recoveryCount := 0);
      if (s.warningTrigger || c.hitCount >= rule.warningWindows) && c.state == Normal {
        c := c.(state := Alert);
        if CooldownActive(cooldownMs, c, s.nowMs) { return c, None; }
        c := c.(notificationActive := true);
        c := c.(lastActivationMs := s.nowMs);
        return c, Some(Warning);
      }
      return c, None;
    }
    if Recovered(rule, s) && c.state != Normal {
      c := c.(recoveryCount := c.recoveryCount + 1);
      if c.recoveryCount >= rule.recoveryWindows {
        c := c.(state := Normal);
        c := c.(hitCount := 0);
        c := c.(criticalHitCount := 0);
        if !c.notificationActive { return c, None; }
        c := c.(notificationActive := false);
        return c, Some(Recovery);
      }
      return c, None;
    }
    c := c.(hitCount := 0, criticalHitCount := 0, recoveryCount := 0);
  }

  // ---- Streams ----

  /** The context after a stream of samples of one target. */
  function After(rule: Rule, cooldownMs: nat, samples: seq<Sample>): Context {
    if samples == [] then FRESH
    else Evaluate(rule, cooldownMs, After(rule, cooldownMs, samples[..|samples| - 1]), samples[|samples| - 1]).context
  }

  /** What the i-th sample of the stream makes the alarm say. */
  function EventAt(rule: Rule, cooldownMs: nat, samples: seq<Sample>, i: nat): Option<Level>
    requires i < |samples|
  {
    Evaluate(rule, cooldownMs, After(rule, cooldownMs, samples[..i]), samples[i]).event
  }

  function Emitted(rule: Rule, cooldownMs: nat, samples: seq<Sample>): seq<Level> {
    if samples == [] then []
    else
      var n := |samples| - 1;
      var event := EventAt(rule, cooldownMs, samples, n);
      Emitted(rule, cooldownMs, samples[..n]) + if event.Some? then [event.value] else []
  }

  // ---- States, notifications and counters agree ----

  ghost predicate Consistent(c: Context) {
    && (c.state == Normal ==> !c.notificationActive)
    && (c.state == Severe ==> c.notificationActive)
    && c.criticalHitCount <= c.hitCount <= c.totalHitCount
  }

  lemma EvaluateConsistent(rule: Rule, cooldownMs: nat, c: Context, s: Sample)
    requires Consistent(c)
    ensures Consistent(Evaluate(rule, cooldownMs, c, s).context)
  {
  }

  lemma {:induction false} AlwaysConsistent(rule: Rule, cooldownMs: nat, samples: seq<Sample>)
    ensures Consistent(After(rule, cooldownMs, samples))
  {
    if samples != [] {
      var init := samples[..|samples| - 1];
      AlwaysConsistent(rule, cooldownMs, init);
      EvaluateConsistent(rule, cooldownMs, After(rule, cooldownMs, init), samples[|samples| - 1]);
    }
  }

  // ---- The language of alarms ----

  predicate Episode(levels: seq<Level>) {
    levels == [Warning, Recovery] || levels == [Warning, Critical, Recovery] || levels == [Critical, Recovery]
  }

  predicate OpenEpisode(levels: seq<Level>) {
    levels == [] || levels == [Warning] || levels == [Warning, Critical] || levels == [Critical]
  }

  /** How far the open episode has come, as the context knows it. */
  ghost predicate Tracks(c: Context, open: seq<Level>) {
    && Consistent(c) && OpenEpisode(open)
    && (c.notificationActive <==> open != [])
    && (c.state == Severe <==> open != [] && open[|open| - 1] == Critical)
  }

  lemma EvaluateTracks(rule: Rule, cooldownMs: nat, c: Context, s: Sample, open: seq<Level>)
    requires Tracks(c, open)
    ensures var v := Evaluate(rule, cooldownMs, c, s);
            if v.event.None? then Tracks(v.context, open)
            else if v.event.value == Recovery then Episode(open + [Recovery]) && Tracks(v.context, [])
            else Tracks(v.context, open + [v.event.value])
  {
    EvaluateConsistent(rule, cooldownMs, c, s);
  }

  /** Over any stream the alarm says whole episodes (Warning Critical? Recovery | Critical Recovery) and an open one. */
  lemma {:induction false} AlarmLanguage(rule: Rule, cooldownMs: nat, samples: seq<Sample>)
    returns (episodes: seq<seq<Level>>, open: seq<Level>)
    ensures Emitted(rule, cooldownMs, samples) == Concat(episodes) + open
    ensures forall k :: 0 <= k < |episodes| ==> Episode(episodes[k])
    ensures Tracks(After(rule, cooldownMs, samples), open)
  {
    if samples == [] { return [], []; }
    var n := |samples| - 1;
    var before, event := After(rule, cooldownMs, samples[..n]), EventAt(rule, cooldownMs, samples, n);
    assert Verdict(After(rule, cooldownMs, samples), event) == Evaluate(rule, cooldownMs, before, samples[n]);
    assert Emitted(rule, cooldownMs, samples)
           == Emitted(rule, cooldownMs, samples[..n]) + if event.Some? then [event.value] else [];
    hide Evaluate, Emitted, After, EventAt, Tracks;
    episodes, open := AlarmLanguage(rule, cooldownMs, samples[..n]);
    EvaluateTracks(rule, cooldownMs, before, samples[n], open);
    if event == Some(Recovery) {
      ConcatSnoc(episodes, open + [Recovery]);
      PlusAssoc(Concat(episodes), open, [Recovery]);
      episodes, open := episodes + [open + [Recovery]], [];
    } else if event.Some? {
      PlusAssoc(Concat(episodes), open, [event.value]);
      open := open + [event.value];
    }
  }
}
