/** The rule engine: one alarm context per target, pruned by age whenever any target is evaluated. */
module RuleEngine {
  import opened Sequences
  import opened Events
  import opened AlarmRule

  datatype Target =
    | Cpu(name: string)
    | Thread(pid: nat, tid: nat)
    | Device(name: string)
    | Process(name: string, pid: nat)

  datatype Thresholds = Thresholds(warning: real, critical: real, recovery: real)

  datatype WindowCounts = WindowCounts(warning: nat, critical: nat, recovery: nat)

  datatype EngineConfig = EngineConfig(cpuEnable: bool, cpu: Thresholds, cpuWindows: WindowCounts,
                                       schedEnable: bool, sched: Thresholds, schedWindows: WindowCounts,
                                       ioEnable: bool, io: Thresholds, ioWindows: WindowCounts,
                                       processEnable: bool, process: Thresholds,
                                       cooldownSec: nat, stateTtlSec: nat, involuntarySwitchWarning: nat,
                                       ioUtilWarning: real, ioUtilCritical: real, ioUtilRecovery: real)

  type Contexts = map<Target, Context>

  /** All four rules are about values that are too large; a process alarms and recovers at once. */
  function RuleOf(cfg: EngineConfig, target: Target): Rule {
    match target
    case Cpu(_) => Above(cfg.cpu, cfg.cpuWindows)
    case Thread(_, _) => Above(cfg.sched, cfg.schedWindows)
    case Device(_) => Above(cfg.io, cfg.ioWindows)
    case Process(_, _) => Above(cfg.process, WindowCounts(1, 1, 1))
  }

  function Above(t: Thresholds, w: WindowCounts): Rule {
    Rule(true, t.warning, t.critical, t.recovery, w.warning, w.critical, w.recovery)
  }

  function CooldownMs(cfg: EngineConfig): nat {
    cfg.cooldownSec * 1000
  }

  function TtlMs(cfg: EngineConfig): (t: nat)
    ensures t > 0
  {
    (if cfg.stateTtlSec == 0 then 3600 else cfg.stateTtlSec) * 1000
  }

  /** One evaluation: the clock is read on entry, and again by evaluate_threshold. */
  datatype Input = Input(target: Target, enterMs: nat, sample: Sample)

  predicate Expired(c: Context, ttlMs: nat, nowMs: nat) {
    c.lastSeenMs != 0 && Elapsed(nowMs, c.lastSeenMs) >= ttlMs
  }

  function Surviving(contexts: Contexts, ttlMs: nat, nowMs: nat): Contexts {
    map t | t in contexts && !Expired(contexts[t], ttlMs, nowMs) :: contexts[t]
  }

  /** operator[] of the map, then the entry's own time stamp. */
  function Touched(contexts: Contexts, target: Target, nowMs: nat): Contexts {
    contexts[target := (if target in contexts then contexts[target] else FRESH).(lastSeenMs := nowMs)]
  }

  datatype Outcome = Outcome(contexts: Contexts, event: Option<Level>)

  /** The context that evaluate_threshold gets to see. */
  function ContextFor(cfg: EngineConfig, contexts: Contexts, input: Input): Context {
    var kept := Surviving(Touched(contexts, input.target, input.enterMs), TtlMs(cfg), input.enterMs);
    if input.target in kept then kept[input.target] else FRESH
  }

  function EngineStep(cfg: EngineConfig, contexts: Contexts, input: Input): Outcome {
    var kept := Surviving(Touched(contexts, input.target, input.enterMs), TtlMs(cfg), input.enterMs);
    var verdict := Evaluate(RuleOf(cfg, input.target), CooldownMs(cfg), ContextFor(cfg, contexts, input), input.sample);
    Outcome(kept[input.target := verdict.context], verdict.event)
  }

  /** The target is told what this rule makes of the sample, and its context is the rule's. */
  predicate IsTold(rule: Rule, cooldownMs: nat, before: Contexts, after: Contexts, target: Target, s: Sample,
                   event: Option<Level>)
  {
    && target in after
    && Verdict(after[target], event)
       == Evaluate(rule, cooldownMs, if target in before then before[target] else FRESH, s)
  }

  lemma StepTells(cfg: EngineConfig, contexts: Contexts, input: Input)
    ensures var out := EngineStep(cfg, contexts, input);
            IsTold(RuleOf(cfg, input.target), CooldownMs(cfg), contexts, out.contexts, input.target, input.sample,
                   out.event)
  {
    StepSeenFrom(cfg, contexts, input, input.target);
    hide EngineStep, Evaluate;
  }

  class Engine {
    const cfg: EngineConfig
    var contexts: Contexts

    constructor (cfg: EngineConfig)
      ensures this.cfg == cfg && contexts == map[]
    {
      this.cfg, contexts := cfg, map[];
    }

    /** prune_expired_contexts. */
    method PruneExpired(nowMs: nat)
      modifies this`contexts
      ensures contexts == Surviving(old(contexts), TtlMs(cfg), nowMs)
      ensures var ttlMs := if cfg.stateTtlSec == 0 then 3_600_000 else cfg.stateTtlSec * 1000;
              forall t :: t in old(contexts) && old(contexts)[t].lastSeenMs <= nowMs ==>
                (t in contexts <==> old(contexts)[t].lastSeenMs == 0 || nowMs - old(contexts)[t].lastSeenMs < ttlMs)
    {
      var rest := contexts.Keys;
      while rest != {}
        invariant rest <= contexts.Keys <= old(contexts).Keys
        invariant forall t :: t in contexts ==> contexts[t] == old(contexts)[t]
        invariant forall t :: t in old(contexts) && t !in rest ==>
                    (t in contexts <==> !Expired(old(contexts)[t], TtlMs(cfg), nowMs))
      {
        var t :| t in rest;
        rest := rest - {t};
        if Expired(contexts[t], TtlMs(cfg), nowMs) { contexts := contexts - {t}; }
      }
    }

    /** What evaluate_cpu_usage, _sched_delay, _io_delay and _process_memory_growth have in common. */
    method EvaluateTarget(input: Input) returns (event: Option<Level>)
      modifies this`contexts
      ensures Outcome(contexts, event) == EngineStep(cfg, old(contexts), input)
    {
      if input.target !in contexts { contexts := contexts[input.target := FRESH]; }
      contexts := contexts[input.target := contexts[input.target].(lastSeenMs := input.enterMs)];
      PruneExpired(input.enterMs);
      EvaluatedSurvives(cfg, old(contexts), input);
      var c;
      c, event := EvaluateThreshold(contexts[input.target], RuleOf(cfg, input.target), CooldownMs(cfg), input.sample);
      contexts := contexts[input.target := c];
    }

    /** evaluate_cpu_usage. */
    method EvaluateCpuUsage(cpu: string, valid: bool, percent: real, enterMs: nat, nowMs: nat)
      returns (event: Option<Level>)
      modifies this`contexts
      ensures !cfg.cpuEnable || !valid || cpu == "" ==> event == None && contexts == old(contexts)
      ensures cfg.cpuEnable && valid && cpu != "" ==>
                var input := Input(Cpu(cpu), enterMs, Sample(percent, false, false, false, nowMs));
                && Outcome(contexts, event) == EngineStep(cfg, old(contexts), input)
                && IsTold(Rule(true, cfg.cpu.warning, cfg.cpu.critical, cfg.cpu.recovery, cfg.cpuWindows.warning,
                               cfg.cpuWindows.critical, cfg.cpuWindows.recovery),
                          cfg.cooldownSec * 1000, old(contexts), contexts, Cpu(cpu), input.sample, event)
    {
      if !cfg.cpuEnable || !valid || cpu == "" { return None; }
      var input := Input(Cpu(cpu), enterMs, Sample(percent, false, false, false, nowMs));
      StepTells(cfg, contexts, input);
      hide EngineStep, IsTold;
      event := EvaluateTarget(input);
    }

    /** evaluate_io_delay: utilisation with requests in flight triggers, and utilisation alone blocks recovery. */
    method EvaluateIoDelay(device: string, valid: bool, awaitMs: real, util: real, inFlight: nat, enterMs: nat,
                           nowMs: nat)
      returns (event: Option<Level>)
      modifies this`contexts
      ensures !cfg.ioEnable || !valid || device == "" ==> event == None && contexts == old(contexts)
      ensures cfg.ioEnable && valid && device != "" ==>
                var input := Input(Device(device), enterMs,
                                   Sample(awaitMs, util >= cfg.ioUtilWarning && inFlight > 0,
                                          util >= cfg.ioUtilCritical && inFlight > 0, util > cfg.ioUtilRecovery,
                                          nowMs));
                && Outcome(contexts, event) == EngineStep(cfg, old(contexts), input)
                && IsTold(Rule(true, cfg.io.warning, cfg.io.critical, cfg.io.recovery, cfg.ioWindows.warning,
                               cfg.ioWindows.critical, cfg.ioWindows.recovery),
                          cfg.cooldownSec * 1000, old(contexts), contexts, Device(device), input.sample, event)
    {
      if !cfg.ioEnable || !valid || device == "" { return None; }
      var criticalUtil := util >= cfg.ioUtilCritical && inFlight > 0;
      var warningUtil := util >= cfg.ioUtilWarning && inFlight > 0;
      var blocked := util > cfg.ioUtilRecovery;
      var input := Input(Device(device), enterMs, Sample(awaitMs, warningUtil, criticalUtil, blocked, nowMs));
      StepTells(cfg, contexts, input);
      hide EngineStep, IsTold;
      event := EvaluateTarget(input);
    }

    /** evaluate_sched_delay: the wait counts only when enough involuntary switches came with it. */
    method EvaluateSchedDelay(pid: nat, tid: nat, valid: bool, waitUs: real, switches: nat, enterMs: nat, nowMs: nat)
      returns (event: Option<Level>)
      modifies this`contexts
      ensures !cfg.schedEnable || !valid ==> event == None && contexts == old(contexts)
      ensures cfg.schedEnable && valid ==>
                var input := Input(Thread(pid, tid), enterMs,
                                   Sample(if switches >= cfg.involuntarySwitchWarning then waitUs else 0.0,
                                          false, false, false, nowMs));
                && Outcome(contexts, event) == EngineStep(cfg, old(contexts), input)
                && IsTold(Rule(true, cfg.sched.warning, cfg.sched.critical, cfg.sched.recovery,
                               cfg.schedWindows.warning, cfg.schedWindows.critical, cfg.schedWindows.recovery),
                          cfg.cooldownSec * 1000, old(contexts), contexts, Thread(pid, tid), input.sample, event)
    {
      if !cfg.schedEnable || !valid { return None; }
      var value := if switches >= cfg.involuntarySwitchWarning then waitUs else 0.0;
      var input := Input(Thread(pid, tid), enterMs, Sample(value, false, false, false, nowMs));
      StepTells(cfg, contexts, input);
      hide EngineStep, IsTold;
      event := EvaluateTarget(input);
    }

    /** evaluate_process_memory_growth: every window is one sample. */
    method EvaluateProcessGrowth(name: string, pid: nat, growthMb: real, enterMs: nat, nowMs: nat)
      returns (event: Option<Level>)
      modifies this`contexts
      ensures !cfg.processEnable || name == "" || pid == 0 ==> event == None && contexts == old(contexts)
      ensures cfg.processEnable && name != "" && pid > 0 ==>
                var input := Input(Process(name, pid), enterMs, Sample(growthMb, false, false, false, nowMs));
                && Outcome(contexts, event) == EngineStep(cfg, old(contexts), input)
                && IsTold(Rule(true, cfg.process.warning, cfg.process.critical, cfg.process.recovery, 1, 1, 1),
                          cfg.cooldownSec * 1000, old(contexts), contexts, Process(name, pid), input.sample, event)
    {
      if !cfg.processEnable || name == "" || pid == 0 { return None; }
      var input := Input(Process(name, pid), enterMs, Sample(growthMb, false, false, false, nowMs));
      StepTells(cfg, contexts, input);
      hide EngineStep, IsTold;
      event := EvaluateTarget(input);
    }

    /** forget_process_memory. */
    method ForgetProcess(name: string, pid: nat)
      modifies this`contexts
      ensures contexts == old(contexts) - {Process(name, pid)}
    {
      contexts := contexts - {Process(name, pid)};
    }
  }

  /** Pruning never removes the target being evaluated, and whatever survives has been seen within the time to live. */
  lemma EvaluatedSurvives(cfg: EngineConfig, contexts: Contexts, input: Input)
    ensures var kept := Surviving(Touched(contexts, input.target, input.enterMs), TtlMs(cfg), input.enterMs);
            && input.target in kept
            && kept[input.target] == Touched(contexts, input.target, input.enterMs)[input.target]
            && forall t :: t in kept ==>
                 kept[t].lastSeenMs == 0 || Elapsed(input.enterMs, kept[t].lastSeenMs) < TtlMs(cfg)
  {
  }

  // ---- Streams of calls over many targets ----

  /** A call of an evaluation, or of forget_process_memory. */
  datatype Call =
    | Judge(input: Input)
    | Forget(name: string, pid: nat)

  function CallStep(cfg: EngineConfig, contexts: Contexts, call: Call): Outcome {
    match call
    case Judge(input) => EngineStep(cfg, contexts, input)
    case Forget(name, pid) => Outcome(contexts - {Process(name, pid)}, None)
  }

  function ContextsAfter(cfg: EngineConfig, calls: seq<Call>): Contexts {
    if calls == [] then map[]
    else CallStep(cfg, ContextsAfter(cfg, calls[..|calls| - 1]), calls[|calls| - 1]).contexts
  }

  function EngineEvent(cfg: EngineConfig, calls: seq<Call>, i: nat): Option<Level>
    requires i < |calls|
  {
    CallStep(cfg, ContextsAfter(cfg, calls[..i]), calls[i]).event
  }

  predicate Judges(call: Call, target: Target) {
    call.Judge? && call.input.target == target
  }

  predicate Forgets(call: Call, target: Target) {
    call.Forget? && target == Process(call.name, call.pid)
  }

  /** The clock never goes back, not even between the two readings of one evaluation. */
  ghost predicate Clocked(calls: seq<Call>) {
    && (forall i :: 0 <= i < |calls| && calls[i].Judge? ==> 0 < calls[i].input.enterMs <= calls[i].input.sample.nowMs)
    && forall i, j :: 0 <= i < j < |calls| && calls[i].Judge? && calls[j].Judge? ==>
         calls[i].input.sample.nowMs <= calls[j].input.enterMs
  }

  /** The latest reading of the clock. */
  function ClockOf(calls: seq<Call>): nat {
    if calls == [] then 0
    else if calls[|calls| - 1].Judge? then calls[|calls| - 1].input.sample.nowMs
    else ClockOf(calls[..|calls| - 1])
  }

  lemma {:induction false} ClockIsBehind(calls: seq<Call>, nowMs: nat)
    requires forall i :: 0 <= i < |calls| && calls[i].Judge? ==> calls[i].input.sample.nowMs <= nowMs
    ensures ClockOf(calls) <= nowMs
  {
    if calls != [] { ClockIsBehind(calls[..|calls| - 1], nowMs); }
  }

  lemma ClockedPrefix(calls: seq<Call>, n: nat)
    requires Clocked(calls) && n < |calls|
    ensures Clocked(calls[..n])
    ensures calls[n].Judge? ==> ClockOf(calls[..n]) <= calls[n].input.enterMs
  {
    assert forall i :: 0 <= i < n ==> calls[..n][i] == calls[i];
    if calls[n].Judge? { ClockIsBehind(calls[..n], calls[n].input.enterMs); }
  }

  /** The samples of one target since it was last forgotten, in order. */
  function Of(calls: seq<Call>, target: Target): seq<Sample> {
    if calls == [] || Forgets(calls[|calls| - 1], target) then []
    else
      var last := calls[|calls| - 1];
      Of(calls[..|calls| - 1], target) + if Judges(last, target) then [last.input.sample] else []
  }

  /** What the engine has said about one target since it was last forgotten, one entry a sample. */
  function SaidOf(cfg: EngineConfig, calls: seq<Call>, target: Target): seq<Option<Level>> {
    if calls == [] || Forgets(calls[|calls| - 1], target) then []
    else
      var n := |calls| - 1;
      SaidOf(cfg, calls[..n], target) + if Judges(calls[n], target) then [EngineEvent(cfg, calls, n)] else []
  }

  /** What a lone alarm says. */
  function SaidAlone(rule: Rule, cooldownMs: nat, samples: seq<Sample>): seq<Option<Level>> {
    if samples == [] then []
    else
      var n := |samples| - 1;
      SaidAlone(rule, cooldownMs, samples[..n]) + [EventAt(rule, cooldownMs, samples, n)]
  }

  /** Each evaluation of the target comes less than ttlMs after the previous one, unless it was forgotten in between. */
  ghost predicate GapsBelow(calls: seq<Call>, target: Target, ttlMs: nat) {
    calls != [] ==>
      var n := |calls| - 1;
      && GapsBelow(calls[..n], target, ttlMs)
      && (Judges(calls[n], target) && Of(calls[..n], target) != [] ==>
            calls[n].input.enterMs < LastOf(calls[..n], target).nowMs + ttlMs)
  }

  function LastOf(calls: seq<Call>, target: Target): Sample
    requires Of(calls, target) != []
  {
    Of(calls, target)[|Of(calls, target)| - 1]
  }

  /** The engine's context of a target is the lone alarm's, or it has been pruned for its age. */
  ghost predicate Mirrors(cfg: EngineConfig, contexts: Contexts, target: Target, alone: Context, seen: bool,
                          clockMs: nat)
  {
    if !seen then target !in contexts && alone == FRESH
    else
      && 0 < alone.lastSeenMs <= clockMs
      && if target in contexts then contexts[target] == alone else clockMs >= alone.lastSeenMs + TtlMs(cfg)
  }

  lemma EvaluateSees(rule: Rule, cooldownMs: nat, c: Context, s: Sample, seenMs: nat)
    ensures Evaluate(rule, cooldownMs, c, s).context.lastSeenMs == s.nowMs
    ensures Evaluate(rule, cooldownMs, c.(lastSeenMs := seenMs), s) == Evaluate(rule, cooldownMs, c, s)
  {
  }

  /** One step of the engine, seen from target A: its own sample is evaluated, another target's can only prune it. */
  lemma StepSeenFrom(cfg: EngineConfig, contexts: Contexts, input: Input, target: Target)
    ensures var out := EngineStep(cfg, contexts, input);
            if input.target == target then
              var c := if target in contexts then contexts[target] else FRESH;
              var v := Evaluate(RuleOf(cfg, target), CooldownMs(cfg), c, input.sample);
              out.event == v.event && target in out.contexts && out.contexts[target] == v.context
            else
              && (target in out.contexts <==>
                    target in contexts && !Expired(contexts[target], TtlMs(cfg), input.enterMs))
              && (target in out.contexts ==> out.contexts[target] == contexts[target])
  {
    EvaluatedSurvives(cfg, contexts, input);
    if input.target == target {
      var c := if target in contexts then contexts[target] else FRESH;
      EvaluateSees(RuleOf(cfg, target), CooldownMs(cfg), c, input.sample, input.enterMs);
    }
  }

  /** While its samples come soon enough, the target's context keeps mirroring the lone alarm's. */
  lemma MirrorStep(cfg: EngineConfig, contexts: Contexts, target: Target, alone: Context, seen: bool, clockMs: nat,
                   input: Input)
    requires Mirrors(cfg, contexts, target, alone, seen, clockMs)
    requires clockMs <= input.enterMs <= input.sample.nowMs && 0 < input.enterMs
    requires input.target == target && seen ==> input.enterMs < alone.lastSeenMs + TtlMs(cfg)
    ensures var out := EngineStep(cfg, contexts, input);
            var v := Evaluate(RuleOf(cfg, target), CooldownMs(cfg), alone, input.sample);
            if input.target == target
            then out.event == v.event && Mirrors(cfg, out.contexts, target, v.context, true, input.sample.nowMs)
            else Mirrors(cfg, out.contexts, target, alone, seen, input.sample.nowMs)
  {
    StepSeenFrom(cfg, contexts, input, target);
    EvaluateSees(RuleOf(cfg, target), CooldownMs(cfg), alone, input.sample, 0);
    hide Evaluate, EngineStep;
  }

  /** Forgetting a target leaves it as if it had never been, and no other changes. */
  lemma MirrorForget(cfg: EngineConfig, contexts: Contexts, target: Target, alone: Context, seen: bool, clockMs: nat,
                     call: Call)
    requires Mirrors(cfg, contexts, target, alone, seen, clockMs) && call.Forget?
    ensures var after := CallStep(cfg, contexts, call).contexts;
            if Forgets(call, target) then Mirrors(cfg, after, target, FRESH, false, clockMs)
            else Mirrors(cfg, after, target, alone, seen, clockMs)
  {
  }

  lemma {:induction false} Mirrored(cfg: EngineConfig, calls: seq<Call>, target: Target)
    requires Clocked(calls) && GapsBelow(calls, target, TtlMs(cfg))
    ensures var samples := Of(calls, target);
            var alone := After(RuleOf(cfg, target), CooldownMs(cfg), samples);
            && Mirrors(cfg, ContextsAfter(cfg, calls), target, alone, samples != [], ClockOf(calls))
            && (samples != [] ==> alone.lastSeenMs == LastOf(calls, target).nowMs)
    ensures SaidOf(cfg, calls, target) == SaidAlone(RuleOf(cfg, target), CooldownMs(cfg), Of(calls, target))
  {
    if calls != [] {
      var n := |calls| - 1;
      var init, last := calls[..n], calls[n];
      ClockedPrefix(calls, n);
      Mirrored(cfg, init, target);
      var rule, cooldownMs := RuleOf(cfg, target), CooldownMs(cfg);
      var samples := Of(init, target);
      var alone := After(rule, cooldownMs, samples);
      StreamStep(cfg, calls);
      OfStep(cfg, calls, target);
      if last.Judge? {
        MirrorStep(cfg, ContextsAfter(cfg, init), target, alone, samples != [], ClockOf(init), last.input);
        EvaluateSees(rule, cooldownMs, alone, last.input.sample, 0);
        AloneStep(rule, cooldownMs, samples, last.input.sample);
      } else {
        MirrorForget(cfg, ContextsAfter(cfg, init), target, alone, samples != [], ClockOf(init), last);
        NothingSaidAlone(rule, cooldownMs);
      }
      hide Clocked, GapsBelow, Mirrors, ContextsAfter, SaidOf, SaidAlone, Of, LastOf, After, Evaluate, EngineStep,
        ClockOf, RuleOf, CooldownMs, TtlMs, EngineEvent;
    }
  }

  lemma NothingSaidAlone(rule: Rule, cooldownMs: nat)
    ensures After(rule, cooldownMs, []) == FRESH && SaidAlone(rule, cooldownMs, []) == []
  {
  }

  lemma StreamStep(cfg: EngineConfig, calls: seq<Call>)
    requires calls != []
    ensures var n := |calls| - 1;
            var out := CallStep(cfg, ContextsAfter(cfg, calls[..n]), calls[n]);
            ContextsAfter(cfg, calls) == out.contexts && EngineEvent(cfg, calls, n) == out.event
  {
  }

  lemma OfStep(cfg: EngineConfig, calls: seq<Call>, target: Target)
    requires calls != []
    ensures var n := |calls| - 1;
            if Judges(calls[n], target) then
              && Of(calls, target) == Of(calls[..n], target) + [calls[n].input.sample]
              && LastOf(calls, target) == calls[n].input.sample
              && SaidOf(cfg, calls, target) == SaidOf(cfg, calls[..n], target) + [EngineEvent(cfg, calls, n)]
            else if Forgets(calls[n], target) then Of(calls, target) == [] && SaidOf(cfg, calls, target) == []
            else
              && Of(calls, target) == Of(calls[..n], target)
              && (Of(calls, target) != [] ==> LastOf(calls, target) == LastOf(calls[..n], target))
              && SaidOf(cfg, calls, target) == SaidOf(cfg, calls[..n], target)
    ensures ClockOf(calls) == if calls[|calls| - 1].Judge? then calls[|calls| - 1].input.sample.nowMs
                              else ClockOf(calls[..|calls| - 1])
  {
  }

  lemma AloneStep(rule: Rule, cooldownMs: nat, samples: seq<Sample>, s: Sample)
    ensures var v := Evaluate(rule, cooldownMs, After(rule, cooldownMs, samples), s);
            && After(rule, cooldownMs, samples + [s]) == v.context
            && SaidAlone(rule, cooldownMs, samples + [s]) == SaidAlone(rule, cooldownMs, samples) + [v.event]
  {
    assert (samples + [s])[..|samples|] == samples;
  }

  /**
    Non-interference: in a stream of calls over any number of targets, a target whose samples come less than the time to
    live apart is told exactly what it would be told alone, from the beginning or since it was last forgotten.
  */
  lemma NonInterference(cfg: EngineConfig, calls: seq<Call>, target: Target)
    requires Clocked(calls) && GapsBelow(calls, target, TtlMs(cfg))
    ensures SaidOf(cfg, calls, target) == SaidAlone(RuleOf(cfg, target), CooldownMs(cfg), Of(calls, target))
  {
    Mirrored(cfg, calls, target);
  }
}
