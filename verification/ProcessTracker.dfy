/** The whitelisted processes the monitor follows: one instance per pid, and nothing kept of instances that are gone. */
module ProcessTracker {
  import opened Sequences
  import opened Events
  import AlarmRule
  import opened RuleEngine
  import opened MemoryWindow

  datatype Instance = Instance(name: string, starttime: nat)

  datatype ProcessSample = ProcessSample(pid: nat, name: string, starttime: nat, cpuTicks: nat, rss: nat)

  datatype Baseline = Baseline(ticks: nat, atMs: nat)

  /** What one walk over /proc found; uncertain pids are there but could not be read. */
  datatype Scan = Scan(samples: seq<ProcessSample>, uncertain: set<nat>, complete: bool)

  function InstanceOf(s: ProcessSample): Instance {
    Instance(s.name, s.starttime)
  }

  function PidsOf(samples: seq<ProcessSample>): set<nat> {
    set i | 0 <= i < |samples| :: samples[i].pid
  }

  lemma NoPids(samples: seq<ProcessSample>)
    ensures PidsOf(samples[..0]) == {}
  {
  }

  lemma OneMorePid(samples: seq<ProcessSample>, k: nat)
    requires k < |samples|
    ensures PidsOf(samples[..k + 1]) == PidsOf(samples[..k]) + {samples[k].pid}
  {
    forall pid | pid in PidsOf(samples[..k + 1]) ensures pid in PidsOf(samples[..k]) + {samples[k].pid} {
      var i :| 0 <= i < k + 1 && samples[..k + 1][i].pid == pid;
      if i < k { assert samples[..k][i].pid == pid; }
    }
    forall pid | pid in PidsOf(samples[..k]) + {samples[k].pid} ensures pid in PidsOf(samples[..k + 1]) {
      if pid == samples[k].pid {
        assert samples[..k + 1][k].pid == pid;
      } else {
        var i :| 0 <= i < k && samples[..k][i].pid == pid;
        assert samples[..k + 1][i].pid == pid;
      }
    }
  }

  // ---- Keeping everything ----

  /** Who runs under each pid, and every sample of that instance. */
  datatype Past = Past(instances: map<nat, Instance>, samples: map<nat, seq<MemorySample>>)

  function Introduced(past: Past, s: ProcessSample): Past {
    if s.pid in past.instances && past.instances[s.pid] == InstanceOf(s) then past
    else Past(past.instances[s.pid := InstanceOf(s)], past.samples - {s.pid})
  }

  function SamplesOf(past: Past, pid: nat): seq<MemorySample> {
    if pid in past.samples then past.samples[pid] else []
  }

  function Sampled(past: Past, s: ProcessSample, nowMs: nat): Past {
    past.(samples := past.samples[s.pid := SamplesOf(past, s.pid) + [MemorySample(nowMs, s.rss)]])
  }

  function Observed(past: Past, s: ProcessSample, nowMs: nat, memory: bool): Past {
    if memory then Sampled(Introduced(past, s), s, nowMs) else Introduced(past, s)
  }

  function Without(past: Past, gone: set<nat>): Past {
    Past(past.instances - gone, past.samples - gone)
  }

  /** How much the instance has grown since its latest sample of at least a window ago, if it has one. */
  function Growth(past: Past, s: ProcessSample, nowMs: nat, windowMs: nat): Option<int> {
    var base := LatestOld(SamplesOf(past, s.pid), nowMs, windowMs);
    if base.Some? && windowMs > 0 then Some(s.rss - base.value.rss) else None
  }

  // ---- What the rules make of it ----

  /** The context of an instance that has been replaced under its pid is forgotten. */
  function Unreplaced(contexts: Contexts, past: Past, s: ProcessSample): Contexts {
    if s.pid in past.instances && past.instances[s.pid] != InstanceOf(s)
    then contexts - {Process(past.instances[s.pid].name, s.pid)}
    else contexts
  }

  /** The two readings of the clock that one evaluation makes. */
  datatype Times = Times(enterMs: nat, nowMs: nat)

  function GrowthInput(s: ProcessSample, growth: int, at: Times): Input {
    Input(Process(s.name, s.pid), at.enterMs,
          AlarmRule.Sample(growth as real / 1048576.0, false, false, false, at.nowMs))
  }

  /** So many megabytes more are reported as that number, and bytes as fractions of them. */
  lemma GrowthInMegabytes(s: ProcessSample, megabytes: int, bytes: int, at: Times)
    ensures var input := GrowthInput(s, megabytes * 1024 * 1024 + bytes, at);
            && input.sample.value * 1024.0 * 1024.0 == megabytes as real * 1024.0 * 1024.0 + bytes as real
            && input.target == Process(s.name, s.pid)
            && !input.sample.warningTrigger && !input.sample.criticalTrigger && !input.sample.recoveryBlocked
  {
  }

  /** What has been measured, if anything: the difference to the latest sample that is at least a window old. */
  lemma GrowthMeans(past: Past, s: ProcessSample, nowMs: nat, windowMs: nat, k: nat)
    requires s.pid in past.samples && k < |past.samples[s.pid]|
    requires past.samples[s.pid][k].atMs + windowMs <= nowMs && windowMs > 0
    requires forall i :: k < i < |past.samples[s.pid]| ==> past.samples[s.pid][i].atMs + windowMs > nowMs
    ensures Growth(past, s, nowMs, windowMs) == Some(s.rss - past.samples[s.pid][k].rss)
  {
    LatestOldIsLatest(past.samples[s.pid], k, nowMs, windowMs);
  }

  /** The growth goes to the rules, in megabytes, if the instance has a name and a pid. */
  function Reported(cfg: EngineConfig, contexts: Contexts, s: ProcessSample, growth: Option<int>, at: Times): Outcome {
    if growth.None? || !cfg.processEnable || s.name == "" || s.pid == 0 then Outcome(contexts, None)
    else EngineStep(cfg, contexts, GrowthInput(s, growth.value, at))
  }

  function Said(event: Option<Level>): seq<Level> {
    if event.Some? then [event.value] else []
  }

  /** What is kept, the alarm contexts, and what has been reported and published in a scan so far. */
  datatype Scanned = Scanned(past: Past, contexts: Contexts, growths: seq<(nat, int)>, events: seq<Level>)

  function GrowthOf(s: ProcessSample, g: Option<int>): seq<(nat, int)> {
    if g.Some? then [(s.pid, g.value)] else []
  }

  /** One sample more: observed, measured, and told to the rules. */
  function ScanStep(cfg: EngineConfig, sc: Scanned, s: ProcessSample, at: Times, nowMs: nat, windowMs: nat,
                    memory: bool): Scanned {
    var after := Observed(sc.past, s, nowMs, memory);
    var g := if memory then Growth(after, s, nowMs, windowMs) else None;
    var out := Reported(cfg, Unreplaced(sc.contexts, sc.past, s), s, g, at);
    Scanned(after, out.contexts, sc.growths + GrowthOf(s, g), sc.events + Said(out.event))
  }

  /** The samples of a scan, one after the other. */
  function ScanAll(cfg: EngineConfig, sc: Scanned, samples: seq<ProcessSample>, clock: nat -> Times, nowMs: nat,
                   windowMs: nat, memory: bool): Scanned {
    if samples == [] then sc
    else
      var n := |samples| - 1;
      ScanStep(cfg, ScanAll(cfg, sc, samples[..n], clock, nowMs, windowMs, memory), samples[n], clock(n), nowMs,
               windowMs, memory)
  }

  /** The alarm contexts of the instances under these pids. */
  function TargetsOf(instances: map<nat, Instance>, pids: set<nat>): set<Target> {
    set pid | pid in pids && pid in instances :: Process(instances[pid].name, pid)
  }

  lemma TargetsOfMore(contexts: Contexts, instances: map<nat, Instance>, pids: set<nat>, pid: nat)
    requires pid in instances
    ensures contexts - TargetsOf(instances, pids) - {Process(instances[pid].name, pid)}
            == contexts - TargetsOf(instances, pids + {pid})
  {
    assert TargetsOf(instances, pids + {pid}) == TargetsOf(instances, pids) + {Process(instances[pid].name, pid)};
  }

  // ---- Keeping a window ----

  ghost predicate Windows(histories: map<nat, seq<MemorySample>>, past: Past, windowMs: nat, clockMs: nat) {
    && histories.Keys == past.samples.Keys <= past.instances.Keys
    && forall pid :: pid in histories ==>
         && Trimmed(histories[pid], past.samples[pid], windowMs)
         && past.samples[pid][|past.samples[pid]| - 1].atMs <= clockMs
  }

  /** An alarm context of a process belongs to the instance that runs now. */
  ghost predicate NoOrphans(contexts: Contexts, instances: map<nat, Instance>) {
    forall t :: t in contexts && t.Process? ==> t.pid in instances && instances[t.pid].name == t.name
  }

  lemma EvaluatingKeepsTargets(cfg: EngineConfig, contexts: Contexts, input: Input)
    ensures EngineStep(cfg, contexts, input).contexts.Keys <= contexts.Keys + {input.target}
  {
  }

  lemma IntroducedWindows(histories: map<nat, seq<MemorySample>>, past: Past, s: ProcessSample, windowMs: nat,
                          clockMs: nat)
    requires Windows(histories, past, windowMs, clockMs)
    ensures var same := s.pid in past.instances && past.instances[s.pid] == InstanceOf(s);
            Windows(if same then histories else histories - {s.pid}, Introduced(past, s), windowMs, clockMs)
    ensures s.pid !in past.instances ==> histories - {s.pid} == histories
  {
    hide Trimmed;
  }

  lemma IntroducedTargets(contexts: Contexts, past: Past, s: ProcessSample)
    requires NoOrphans(contexts, past.instances)
    ensures var known := s.pid in past.instances;
            var same := known && past.instances[s.pid] == InstanceOf(s);
            && Introduced(past, s).instances == past.instances[s.pid := InstanceOf(s)]
            && (same ==> Introduced(past, s).instances == past.instances)
            && NoOrphans(Unreplaced(contexts, past, s), Introduced(past, s).instances)
  {
  }

  lemma KnownWindow(histories: map<nat, seq<MemorySample>>, past: Past, windowMs: nat, clockMs: nat, pid: nat)
    requires Windows(histories, past, windowMs, clockMs)
    ensures var history := if pid in histories then histories[pid] else [];
            var full := SamplesOf(past, pid);
            && (history == full == [] || Trimmed(history, full, windowMs))
            && (full != [] ==> full[|full| - 1].atMs <= clockMs)
  {
    hide Trimmed;
  }

  lemma SampledWindows(histories: map<nat, seq<MemorySample>>, past: Past, windowMs: nat, clockMs: nat,
                       s: ProcessSample, nowMs: nat, history: seq<MemorySample>)
    requires Windows(histories, past, windowMs, clockMs) && s.pid in past.instances && clockMs <= nowMs
    requires Trimmed(history, SamplesOf(past, s.pid) + [MemorySample(nowMs, s.rss)], windowMs)
    ensures Windows(histories[s.pid := history], Sampled(past, s, nowMs), windowMs, nowMs)
  {
    hide Trimmed;
  }

  class ProcessTracker {
    const windowMs: nat
    const memoryEnabled: bool
    const engine: Engine
    var instances: map<nat, Instance>
    var baselines: map<nat, Baseline>
    var histories: map<nat, seq<MemorySample>>

    ghost var past: Past
    ghost var clockMs: nat

    ghost predicate Valid()
      reads this, engine
    {
      && instances == past.instances && baselines.Keys == instances.Keys
      && Windows(histories, past, windowMs, clockMs)
      && NoOrphans(engine.contexts, instances)
    }

    constructor (windowMs: nat, memoryEnabled: bool, engine: Engine)
      requires forall t :: t in engine.contexts ==> !t.Process?
      ensures Valid() && past == Past(map[], map[]) && clockMs == 0
      ensures this.windowMs == windowMs && this.memoryEnabled == memoryEnabled && this.engine == engine
    {
      this.windowMs, this.memoryEnabled, this.engine := windowMs, memoryEnabled, engine;
      instances, baselines, histories := map[], map[], map[];
      past, clockMs := Past(map[], map[]), 0;
    }

    /** Meets the sample's instance: what was kept of another instance under the same pid is dropped. */
    method Introduce(s: ProcessSample)
      requires instances == past.instances && baselines.Keys == instances.Keys
      requires Windows(histories, past, windowMs, clockMs) && NoOrphans(engine.contexts, instances)
      modifies this`instances, this`baselines, this`histories, this`past, engine`contexts
      ensures past == Introduced(old(past), s) && instances == past.instances
      ensures baselines.Keys + {s.pid} == instances.Keys
      ensures Windows(histories, past, windowMs, clockMs) && NoOrphans(engine.contexts, instances)
      ensures engine.contexts == Unreplaced(old(engine.contexts), old(past), s)
      ensures var known := s.pid in old(instances);
              var same := && known && old(instances)[s.pid].name == s.name
                          && old(instances)[s.pid].starttime == s.starttime;
              && instances == old(instances)[s.pid := Instance(s.name, s.starttime)]
              && histories == (if known && !same then old(histories) - {s.pid} else old(histories))
              && baselines == (if known && !same then old(baselines) - {s.pid} else old(baselines))
              && (same || !known ==> engine.contexts == old(engine.contexts))
    {
      IntroducedWindows(histories, past, s, windowMs, clockMs);
      IntroducedTargets(engine.contexts, past, s);
      hide Windows, NoOrphans, Introduced;
      var other := s.pid in instances && (instances[s.pid].starttime != s.starttime || instances[s.pid].name != s.name);
      if other { Forget(s.pid); }
      instances := instances[s.pid := InstanceOf(s)];
      past := Introduced(past, s);
    }

    /** Drops what was kept of the instance under this pid, but not the entry itself. */
    method Forget(pid: nat)
      requires pid in instances
      modifies this`baselines, this`histories, engine`contexts
      ensures baselines == old(baselines) - {pid} && histories == old(histories) - {pid}
      ensures engine.contexts == old(engine.contexts) - {Process(instances[pid].name, pid)}
    {
      engine.ForgetProcess(instances[pid].name, pid);
      baselines := baselines - {pid};
      histories := histories - {pid};
    }

    /** The sample joins its window, whose front says how much the instance has grown. */
    method ExtendWindow(s: ProcessSample, nowMs: nat) returns (growth: Option<int>)
      requires Windows(histories, past, windowMs, clockMs) && s.pid in past.instances && clockMs <= nowMs
      modifies this`histories, this`past, this`clockMs
      ensures Windows(histories, past, windowMs, clockMs) && past == Sampled(old(past), s, nowMs) && clockMs == nowMs
      ensures growth == Growth(past, s, nowMs, windowMs)
    {
      hide Trimmed, LatestOld, Windows;
      var history := if s.pid in histories then histories[s.pid] else [];
      KnownWindow(histories, past, windowMs, clockMs, s.pid);
      var base;
      history, base := Extend(history, MemorySample(nowMs, s.rss), windowMs, SamplesOf(past, s.pid));
      SampledWindows(histories, past, windowMs, clockMs, s, nowMs, history);
      histories := histories[s.pid := history];
      past, clockMs := Sampled(past, s, nowMs), nowMs;
      growth := if base.Some? then Some(s.rss - base.value.rss) else None;
    }

    /** The growth goes to the rules, in megabytes. */
    method Report(s: ProcessSample, growth: int, at: Times) returns (event: Option<Level>)
      requires NoOrphans(engine.contexts, instances) && s.pid in instances && instances[s.pid] == InstanceOf(s)
      modifies engine`contexts
      ensures NoOrphans(engine.contexts, instances)
      ensures Outcome(engine.contexts, event) == Reported(engine.cfg, old(engine.contexts), s, Some(growth), at)
    {
      var growthMb := growth as real / 1048576.0;
      EvaluatingKeepsTargets(engine.cfg, engine.contexts, GrowthInput(s, growth, at));
      hide EngineStep;
      event := engine.EvaluateProcessGrowth(s.name, s.pid, growthMb, at.enterMs, at.nowMs);
    }

    /** The next share of the processor is measured from here. */
    method Rebase(s: ProcessSample, nowMs: nat)
      modifies this`baselines
      ensures baselines == old(baselines)[s.pid := Baseline(s.cpuTicks, nowMs)]
    {
      baselines := baselines[s.pid := Baseline(s.cpuTicks, nowMs)];
    }

    /** The loop body for one sample. */
    method Observe(s: ProcessSample, nowMs: nat, at: Times) returns (growth: Option<int>, event: Option<Level>)
      requires Valid() && clockMs <= nowMs
      modifies this`instances, this`baselines, this`histories, this`past, this`clockMs, engine`contexts
      ensures Valid() && past == Observed(old(past), s, nowMs, memoryEnabled) && clockMs <= nowMs
      ensures growth == if memoryEnabled then Growth(past, s, nowMs, windowMs) else None
      ensures Outcome(engine.contexts, event)
           == Reported(engine.cfg, Unreplaced(old(engine.contexts), old(past), s), s, growth, at)
    {
      hide Windows, NoOrphans, Growth, Unreplaced, EngineStep;
      Introduce(s);
      assert s.pid in instances && instances[s.pid] == InstanceOf(s);
      Rebase(s, nowMs);
      growth, event := None, None;
      if memoryEnabled {
        growth := ExtendWindow(s, nowMs);
        if growth.Some? { event := Report(s, growth.value, at); }
      }
    }

    /** After a complete scan: instances that are neither live nor uncertain go, with all that was kept of them. */
    method Sweep(live: set<nat>)
      requires Valid()
      modifies this`instances, this`baselines, this`histories, this`past, engine`contexts
      ensures Valid() && past == Without(old(past), old(instances).Keys - live) && instances.Keys <= live
      ensures engine.contexts == old(engine.contexts) - TargetsOf(old(instances), old(instances).Keys - live)
    {
      var rest := instances.Keys;
      ghost var gone: set<nat> := {};
      assert past == Without(past, gone) && past.instances == instances;
      assert engine.contexts == engine.contexts - TargetsOf(instances, gone);
      hide Windows, NoOrphans, TargetsOf;
      while rest != {}
        invariant Valid() && gone !! rest && gone + rest <= old(instances).Keys
        invariant past == Without(old(past), gone)
        invariant engine.contexts == old(engine.contexts) - TargetsOf(old(instances), gone)
        invariant gone == old(instances).Keys - rest - live
      {
        var pid :| pid in rest;
        rest := rest - {pid};
        if pid !in live {
          WithoutMore(old(past), gone, pid);
          TargetsOfMore(old(engine.contexts), old(instances), gone, pid);
          Drop(pid);
          gone := gone + {pid};
        }
      }
    }

    method Drop(pid: nat)
      requires Valid() && pid in instances
      modifies this`instances, this`baselines, this`histories, this`past, engine`contexts
      ensures Valid() && past == Without(old(past), {pid})
      ensures engine.contexts == old(engine.contexts) - {Process(old(instances)[pid].name, pid)}
    {
      hide Trimmed;
      Forget(pid);
      instances := instances - {pid};
      past := Without(past, {pid});
    }

    ghost function Now(growths: seq<(nat, int)>, events: seq<Level>): Scanned
      reads this`past, engine`contexts
    {
      Scanned(past, engine.contexts, growths, events)
    }

    /** A scan that has seen nothing yet. */
    ghost function Begun(): Scanned
      reads this`past, engine`contexts
    {
      Scanned(past, engine.contexts, [], [])
    }

    /** One sample more. */
    method RecordOne(s: ProcessSample, nowMs: nat, at: Times, growths: seq<(nat, int)>, events: seq<Level>)
      returns (allGrowths: seq<(nat, int)>, allEvents: seq<Level>)
      requires Valid() && clockMs <= nowMs
      modifies this`instances, this`baselines, this`histories, this`past, this`clockMs, engine`contexts
      ensures Valid() && clockMs <= nowMs
      ensures Now(allGrowths, allEvents)
           == ScanStep(engine.cfg, old(Now(growths, events)), s, at, nowMs, windowMs, memoryEnabled)
    {
      hide Windows, NoOrphans, Growth, Observed, Reported, Unreplaced;
      var growth, event := Observe(s, nowMs, at);
      allGrowths := growths + (if growth.Some? then [(s.pid, growth.value)] else []);
      allEvents := events + (if event.Some? then [event.value] else []);
    }

    /** The loop over the samples of a scan. */
    method RecordSamples(samples: seq<ProcessSample>, nowMs: nat, clock: nat -> Times)
      returns (growths: seq<(nat, int)>, events: seq<Level>, pids: set<nat>)
      requires Valid() && clockMs <= nowMs
      modifies this`instances, this`baselines, this`histories, this`past, this`clockMs, engine`contexts
      ensures Valid() && clockMs <= nowMs
      ensures Now(growths, events)
           == ScanAll(engine.cfg, old(Begun()), samples, clock, nowMs, windowMs, memoryEnabled)
      ensures pids == PidsOf(samples)
    {
      growths, events, pids := [], [], {};
      ghost var sc := Begun();
      NothingScanned(engine.cfg, sc, samples, clock, nowMs, windowMs, memoryEnabled);
      NoPids(samples);
      hide Windows, NoOrphans, ScanAll, ScanStep, PidsOf;
      var k := 0;
      while k < |samples|
        invariant 0 <= k <= |samples| && Valid() && clockMs <= nowMs
        invariant pids == PidsOf(samples[..k])
        invariant Now(growths, events)
               == ScanAll(engine.cfg, sc, samples[..k], clock, nowMs, windowMs, memoryEnabled)
      {
        OneMorePid(samples, k);
        OneMoreScanned(engine.cfg, sc, samples, k, clock, nowMs, windowMs, memoryEnabled);
        pids := pids + {samples[k].pid};
        growths, events := RecordOne(samples[k], nowMs, clock(k), growths, events);
        k := k + 1;
      }
      assert samples[..k] == samples;
    }

    /**
      record_whitelisted_process_metrics. The windows report exactly what keeping every sample for ever would report,
      the rules are told exactly that, and a complete scan leaves nothing of pids that it neither sampled nor was
      uncertain about.
    */
    method RecordScan(scan: Scan, nowMs: nat, clock: nat -> Times)
      returns (growths: seq<(nat, int)>, events: seq<Level>)
      requires Valid() && clockMs <= nowMs
      modifies this`instances, this`baselines, this`histories, this`past, this`clockMs, engine`contexts
      ensures Valid() && clockMs <= nowMs
      ensures var seen := ScanAll(engine.cfg, old(Begun()), scan.samples, clock, nowMs, windowMs, memoryEnabled);
              var live := scan.uncertain + PidsOf(scan.samples);
              var gone := if scan.complete then seen.past.instances.Keys - live else {};
              && growths == seen.growths && events == seen.events
              && past == (if scan.complete then Without(seen.past, gone) else seen.past)
              && engine.contexts == (if scan.complete then seen.contexts - TargetsOf(seen.past.instances, gone)
                                     else seen.contexts)
              && (scan.complete ==>
                    && instances.Keys <= live && baselines.Keys <= live && histories.Keys <= live
                    && forall t :: t in engine.contexts && t.Process? ==> t.pid in live)
    {
      hide Windows, NoOrphans, ScanAll, Without, TargetsOf;
      var pids;
      growths, events, pids := RecordSamples(scan.samples, nowMs, clock);
      if scan.complete {
        Sweep(scan.uncertain + pids);
        KeptOnlyOf(scan.uncertain + pids);
      }
    }

    /** Nothing is kept of a pid without an instance. */
    lemma KeptOnlyOf(live: set<nat>)
      requires Valid() && instances.Keys <= live
      ensures baselines.Keys <= live && histories.Keys <= live
      ensures forall t :: t in engine.contexts && t.Process? ==> t.pid in live
    {
    }
  }

  lemma WithoutMore(past: Past, gone: set<nat>, pid: nat)
    ensures Without(Without(past, gone), {pid}) == Without(past, gone + {pid})
  {
    assert gone + {pid} == {pid} + gone;
  }

  lemma NothingScanned(cfg: EngineConfig, sc: Scanned, samples: seq<ProcessSample>, clock: nat -> Times, nowMs: nat,
                       windowMs: nat, memory: bool)
    ensures ScanAll(cfg, sc, samples[..0], clock, nowMs, windowMs, memory) == sc
  {
  }

  lemma OneMoreScanned(cfg: EngineConfig, sc: Scanned, samples: seq<ProcessSample>, k: nat, clock: nat -> Times,
                       nowMs: nat, windowMs: nat, memory: bool)
    requires k < |samples|
    ensures ScanAll(cfg, sc, samples[..k + 1], clock, nowMs, windowMs, memory)
         == ScanStep(cfg, ScanAll(cfg, sc, samples[..k], clock, nowMs, windowMs, memory), samples[k], clock(k), nowMs,
                     windowMs, memory)
  {
    assert samples[..k + 1][..k] == samples[..k];
    hide ScanStep;
  }
}
