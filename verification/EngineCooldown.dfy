/** Cooldown over whole streams of the engine, across the pruning that makes it forget. */
module EngineCooldown {
  import opened Sequences
  import opened Events
  import opened AlarmRule
  import opened AlarmHistory
  import opened RuleEngine

  /** When the target was last told Warning or Critical; 0 before that, and when it has been forgotten since. */
  function LastActivation(cfg: EngineConfig, calls: seq<Call>, target: Target): nat {
    if calls == [] || Forgets(calls[|calls| - 1], target) then 0
    else
      var n := |calls| - 1;
      if Judges(calls[n], target) && Activation(EngineEvent(cfg, calls, n)) then calls[n].input.sample.nowMs
      else LastActivation(cfg, calls[..n], target)
  }

  /** The engine still knows the activation, or the cooldown is over anyway. */
  ghost predicate KnownOrOver(cfg: EngineConfig, contexts: Contexts, target: Target, lastMs: nat, clockMs: nat) {
    && lastMs <= clockMs
    && (target in contexts ==> contexts[target].lastSeenMs <= clockMs && contexts[target].lastActivationMs <= clockMs)
    && (|| lastMs == 0
        || clockMs >= lastMs + CooldownMs(cfg)
        || (&& target in contexts && contexts[target].lastActivationMs == lastMs
            && lastMs <= contexts[target].lastSeenMs))
  }

  lemma KnownOrOverStep(cfg: EngineConfig, contexts: Contexts, target: Target, lastMs: nat, clockMs: nat, input: Input)
    requires KnownOrOver(cfg, contexts, target, lastMs, clockMs) && CooldownMs(cfg) <= TtlMs(cfg)
    requires clockMs <= input.enterMs <= input.sample.nowMs && 0 < input.enterMs
    ensures var out := EngineStep(cfg, contexts, input);
            var told := input.target == target && Activation(out.event);
            && KnownOrOver(cfg, out.contexts, target, if told then input.sample.nowMs else lastMs, input.sample.nowMs)
            && (input.target == target && out.event == Some(Warning) && lastMs != 0 ==>
                  input.sample.nowMs >= lastMs + CooldownMs(cfg))
  {
    StepSeenFrom(cfg, contexts, input, target);
    var out := EngineStep(cfg, contexts, input);
    if input.target == target {
      var c := if target in contexts then contexts[target] else FRESH;
      EvaluateSees(RuleOf(cfg, target), CooldownMs(cfg), c, input.sample, 0);
      EvaluateActivates(RuleOf(cfg, target), CooldownMs(cfg), c, input.sample);
      if out.event == Some(Warning) { WarningIsCool(RuleOf(cfg, target), CooldownMs(cfg), c, input.sample); }
    }
    hide Evaluate, EngineStep;
  }

  lemma WarningIsCool(rule: Rule, cooldownMs: nat, c: Context, s: Sample)
    requires Evaluate(rule, cooldownMs, c, s).event == Some(Warning)
    ensures !CooldownActive(cooldownMs, c, s.nowMs)
  {
  }

  /** Forgetting a target ends its cooldown, and no other's. */
  lemma KnownOrOverForget(cfg: EngineConfig, contexts: Contexts, target: Target, lastMs: nat, clockMs: nat, call: Call)
    requires KnownOrOver(cfg, contexts, target, lastMs, clockMs) && call.Forget?
    ensures KnownOrOver(cfg, CallStep(cfg, contexts, call).contexts, target,
                        if Forgets(call, target) then 0 else lastMs, clockMs)
  {
  }

  lemma {:induction false} KnownOrOverAlways(cfg: EngineConfig, calls: seq<Call>, target: Target)
    requires Clocked(calls) && CooldownMs(cfg) <= TtlMs(cfg)
    ensures KnownOrOver(cfg, ContextsAfter(cfg, calls), target, LastActivation(cfg, calls, target), ClockOf(calls))
  {
    if calls != [] {
      var n := |calls| - 1;
      ClockedPrefix(calls, n);
      KnownOrOverAlways(cfg, calls[..n], target);
      var before, lastMs := ContextsAfter(cfg, calls[..n]), LastActivation(cfg, calls[..n], target);
      if calls[n].Judge? {
        KnownOrOverStep(cfg, before, target, lastMs, ClockOf(calls[..n]), calls[n].input);
      } else {
        KnownOrOverForget(cfg, before, target, lastMs, ClockOf(calls[..n]), calls[n]);
      }
      StreamStep(cfg, calls);
      hide EngineStep, KnownOrOver, Clocked;
    }
  }

  lemma EarlierEvent(cfg: EngineConfig, calls: seq<Call>, n: nat, i: nat)
    requires i < n <= |calls|
    ensures calls[..n][i] == calls[i] && EngineEvent(cfg, calls[..n], i) == EngineEvent(cfg, calls, i)
  {
    assert calls[..n][..i] == calls[..i];
  }

  /** Every activation since the target was last forgotten is at or before the last one. */
  lemma {:induction false} LastIsLatest(cfg: EngineConfig, calls: seq<Call>, target: Target, i: nat)
    requires Clocked(calls) && i < |calls| && Judges(calls[i], target) && Activation(EngineEvent(cfg, calls, i))
    requires forall k :: i < k < |calls| ==> !Forgets(calls[k], target)
    ensures 0 < calls[i].input.sample.nowMs <= LastActivation(cfg, calls, target)
  {
    var n := |calls| - 1;
    hide EngineEvent;
    if i < n {
      ClockedPrefix(calls, n);
      EarlierEvent(cfg, calls, n, i);
      assert forall k :: i < k < n ==> calls[..n][k] == calls[k];
      LastIsLatest(cfg, calls[..n], target, i);
      if calls[n].Judge? { assert calls[i].input.sample.nowMs <= calls[n].input.enterMs; }
    }
  }

  /** A Warning at call j keeps its distance to an activation of the same target at call i, unless forgotten between. */
  ghost predicate Spaced(cfg: EngineConfig, calls: seq<Call>, i: nat, j: nat)
    requires i < j < |calls|
  {
    && calls[i].Judge? && calls[j].Judge? && calls[i].input.target == calls[j].input.target
    && (forall k :: i < k < j ==> !Forgets(calls[k], calls[j].input.target))
    && Activation(EngineEvent(cfg, calls, i)) && EngineEvent(cfg, calls, j) == Some(Warning) ==>
      calls[j].input.sample.nowMs - calls[i].input.sample.nowMs >= CooldownMs(cfg)
  }

  lemma WarningsSpacedAcrossPruning(cfg: EngineConfig, calls: seq<Call>, i: nat, j: nat)
    requires Clocked(calls) && i < j < |calls| && CooldownMs(cfg) <= TtlMs(cfg)
    ensures Spaced(cfg, calls, i, j)
  {
    if && calls[j].Judge? && Judges(calls[i], calls[j].input.target) && Activation(EngineEvent(cfg, calls, i))
       && forall k :: i < k < j ==> !Forgets(calls[k], calls[j].input.target)
    {
      var target, before := calls[j].input.target, calls[..j];
      ClockedPrefix(calls, j);
      EarlierEvent(cfg, calls, j, i);
      assert forall k :: i < k < j ==> before[k] == calls[k];
      LastIsLatest(cfg, before, target, i);
      KnownOrOverAlways(cfg, before, target);
      KnownOrOverStep(cfg, ContextsAfter(cfg, before), target, LastActivation(cfg, before, target), ClockOf(before),
                      calls[j].input);
      hide EngineStep, KnownOrOver;
    }
  }

  // ---- The cooldown outlives the contexts exactly when they live long enough ----

  ghost predicate CooldownHolds(cfg: EngineConfig) {
    forall calls: seq<Call>, i: nat, j: nat | Clocked(calls) && i < j < |calls| :: Spaced(cfg, calls, i, j)
  }

  /** A sample that warns by its trigger alone. */
  function Nudge(rule: Rule, nowMs: nat): (s: Sample)
    ensures Hit(rule, s) && !CriticalHit(rule, s)
  {
    Sample(if rule.greaterOrEqual then rule.critical - 1.0 else rule.critical + 1.0, true, false, false, nowMs)
  }

  lemma ThreeCalls(cfg: EngineConfig, x: Call, y: Call, z: Call)
    ensures EngineEvent(cfg, [x, y, z], 0) == CallStep(cfg, map[], x).event
    ensures EngineEvent(cfg, [x, y, z], 2)
         == CallStep(cfg, CallStep(cfg, CallStep(cfg, map[], x).contexts, y).contexts, z).event
  {
    var one, two, calls := [x], [x, y], [x, y, z];
    assert calls[..0] == [] && calls[..2] == two && two[..1] == one && one[..0] == [];
    StreamStep(cfg, one);
    StreamStep(cfg, two);
    hide CallStep;
  }

  /** Once it is a time to live old, another target's evaluation prunes it. */
  lemma OutlivedIsPruned(cfg: EngineConfig, first: Input, second: Input)
    requires first.target != second.target && 0 < first.sample.nowMs
    requires second.enterMs == first.sample.nowMs + TtlMs(cfg)
    ensures first.target !in EngineStep(cfg, EngineStep(cfg, map[], first).contexts, second).contexts
  {
    StepSeenFrom(cfg, map[], first, first.target);
    StepSeenFrom(cfg, EngineStep(cfg, map[], first).contexts, second, first.target);
    EvaluateSees(RuleOf(cfg, first.target), CooldownMs(cfg), FRESH, first.sample, 0);
    hide EngineStep, Evaluate;
  }

  /** Device a warns, device b outlives a's context, and a warns again too soon. */
  lemma ForgottenCooldown(cfg: EngineConfig)
    requires TtlMs(cfg) < CooldownMs(cfg)
    ensures var late := 1 + TtlMs(cfg);
            var calls := [Judge(Input(Device("a"), 1, Nudge(RuleOf(cfg, Device("a")), 1))),
                          Judge(Input(Device("b"), late, Nudge(RuleOf(cfg, Device("a")), late))),
                          Judge(Input(Device("a"), late, Nudge(RuleOf(cfg, Device("a")), late)))];
            Clocked(calls) && !Spaced(cfg, calls, 0, 2)
  {
    var late := 1 + TtlMs(cfg);
    var rule := RuleOf(cfg, Device("a"));
    var first, second := Input(Device("a"), 1, Nudge(rule, 1)), Input(Device("b"), late, Nudge(rule, late));
    var third := Input(Device("a"), late, Nudge(RuleOf(cfg, Device("a")), late));
    assert Device("a") != Device("b") by { assert "a"[0] != "b"[0]; }
    WarnsTwice(cfg, first, second, third);
    hide EngineStep, EngineEvent, CooldownMs, TtlMs;
  }

  /** With the second call outliving the first one's context, the third warns as if nothing had been. */
  lemma WarnsTwice(cfg: EngineConfig, first: Input, second: Input, third: Input)
    requires first.target == third.target != second.target && 0 < first.sample.nowMs
    requires second.enterMs == first.sample.nowMs + TtlMs(cfg)
    requires first.sample == Nudge(RuleOf(cfg, first.target), first.sample.nowMs)
    requires third.sample == Nudge(RuleOf(cfg, third.target), third.sample.nowMs)
    ensures var calls := [Judge(first), Judge(second), Judge(third)];
            EngineEvent(cfg, calls, 0) == Some(Warning) && EngineEvent(cfg, calls, 2) == Some(Warning)
  {
    ThreeCalls(cfg, Judge(first), Judge(second), Judge(third));
    OutlivedIsPruned(cfg, first, second);
    FreshWarns(cfg, map[], first);
    FreshWarns(cfg, EngineStep(cfg, EngineStep(cfg, map[], first).contexts, second).contexts, third);
    hide EngineStep, EngineEvent, CooldownMs, TtlMs, Nudge;
  }

  lemma FreshWarns(cfg: EngineConfig, contexts: Contexts, input: Input)
    requires input.target !in contexts && input.sample == Nudge(RuleOf(cfg, input.target), input.sample.nowMs)
    ensures EngineStep(cfg, contexts, input).event == Some(Warning)
  {
    StepSeenFrom(cfg, contexts, input, input.target);
  }

  /** Warnings of a target keep their distance in every clocked stream, if and only if contexts outlive the cooldown. */
  lemma CooldownExactly(cfg: EngineConfig)
    ensures CooldownHolds(cfg) <==> CooldownMs(cfg) <= TtlMs(cfg)
  {
    if CooldownMs(cfg) <= TtlMs(cfg) {
      forall calls: seq<Call>, i: nat, j: nat | Clocked(calls) && i < j < |calls|
        ensures Spaced(cfg, calls, i, j)
      {
        WarningsSpacedAcrossPruning(cfg, calls, i, j);
      }
    } else {
      ForgottenCooldown(cfg);
    }
  }
}
