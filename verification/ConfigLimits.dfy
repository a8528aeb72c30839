/** The clamps of ConfigLoader::validate: what the loops may rely on, and which configurations it leaves alone. */
module ConfigLimits {
  import opened Ipv4

  /** A warning, a critical and a recovery threshold. */
  datatype Trio = Trio(warning: nat, critical: nat, recovery: nat)

  datatype RealTrio = RealTrio(warning: real, critical: real, recovery: real)

  datatype Timers = Timers(fastMs: nat, lowFreqMs: nat, dispatcherIdleMs: nat, sinkIdleMs: nat, metricsPort: nat,
                           metricsEnable: bool)

  datatype Queues = Queues(stateTtlSec: nat, capacity: nat, reserved: nat)

  datatype Sched = Sched(wait: Trio, minWaitUs: nat, ringbufKb: nat, maxEventsPerPoll: nat, allowlistRefreshMs: nat,
                         aggregateWindowMs: nat, aggregateMaxEntries: nat, procRefreshMs: nat, maxScanThreads: nat,
                         overrunWarningMs: nat, maxTargets: nat)

  datatype Process = Process(growth: Trio, windowSec: nat)

  datatype Io = Io(awaitMs: RealTrio, util: RealTrio, maxTargets: nat)

  datatype Cpu = Cpu(percent: RealTrio, warningWindows: nat, criticalWindows: nat, recoveryWindows: nat)

  datatype Storage = Storage(cacheMaxMb: nat, fileRotateMb: nat)

  datatype Network = Network(batchSize: nat, flushMs: nat, retryBaseMs: nat, retryMaxMs: nat, walMaxMb: nat,
                             walSegmentMb: nat)

  /** What the rest of the validated fields are, once the two checks have passed. */
  datatype Limits = Limits(timers: Timers, queues: Queues, memory: Trio, queue: Trio, selfRss: Trio, sched: Sched,
                           process: Process, io: Io, cpu: Cpu, storage: Storage, network: Network)

  // ---- The values the loops rely on ----

  predicate Falling(t: Trio) {
    t.recovery <= t.warning <= t.critical
  }

  predicate RealFalling(t: RealTrio) {
    t.recovery <= t.warning <= t.critical
  }

  predicate Percentages(t: RealTrio) {
    0.0 <= t.warning <= 100.0 && 0.0 <= t.critical <= 100.0 && 0.0 <= t.recovery <= 100.0
  }

  predicate TimersOk(t: Timers) {
    t.fastMs >= 100 && t.dispatcherIdleMs > 0 && t.sinkIdleMs > 0 && (t.metricsEnable ==> t.metricsPort != 0)
  }

  predicate QueuesOk(q: Queues) {
    q.stateTtlSec > 0 && q.reserved < q.capacity && q.capacity >= 16
  }

  /** The allow list's refresh is not asked for here: see RefreshOk. */
  predicate SchedOk(s: Sched, lowFreqMs: nat) {
    && Falling(s.wait) && (s.minWaitUs == 0 ==> s.wait.warning == 0) && s.ringbufKb >= 64 && s.maxEventsPerPoll > 0
    && s.aggregateWindowMs > 0 && s.aggregateMaxEntries >= 16 && (s.procRefreshMs == 0 ==> lowFreqMs == 0)
    && s.maxScanThreads > 0 && s.overrunWarningMs > 0 && s.maxTargets > 0
  }

  /** A zero refresh of the allow list means that there was nothing to copy. */
  predicate RefreshOk(s: Sched) {
    s.allowlistRefreshMs == 0 ==> s.procRefreshMs == 0
  }

  predicate IoOk(io: Io) {
    RealFalling(io.awaitMs) && RealFalling(io.util) && io.maxTargets > 0
  }

  predicate CpuOk(c: Cpu) {
    && RealFalling(c.percent) && Percentages(c.percent)
    && c.warningWindows > 0 && c.criticalWindows > 0 && c.recoveryWindows > 0
  }

  predicate StorageOk(s: Storage) {
    1 <= s.fileRotateMb <= s.cacheMaxMb
  }

  predicate NetworkOk(n: Network) {
    && n.batchSize > 0 && n.flushMs > 0 && 1 <= n.retryBaseMs <= n.retryMaxMs && 1 <= n.walSegmentMb <= n.walMaxMb
  }

  /** Everything validate promises, save the refresh of the allow list. */
  predicate InRange(l: Limits) {
    && TimersOk(l.timers) && QueuesOk(l.queues)
    && l.memory.critical <= l.memory.warning <= l.memory.recovery
    && Falling(l.queue) && Falling(l.selfRss)
    && SchedOk(l.sched, l.timers.lowFreqMs) && Falling(l.process.growth) && l.process.windowSec > 0
    && IoOk(l.io) && CpuOk(l.cpu) && StorageOk(l.storage) && NetworkOk(l.network)
  }

  // ---- Each clamp, by what it does to its field ----

  function AtLeast(x: nat, low: nat): nat {
    if x < low then low else x
  }

  function Clamped(t: Trio): Trio {
    Trio(t.warning, AtLeast(t.critical, t.warning), if t.recovery > t.warning then t.warning else t.recovery)
  }

  function RealClamped(t: RealTrio): RealTrio {
    RealTrio(t.warning, if t.critical < t.warning then t.warning else t.critical,
             if t.recovery > t.warning then t.warning else t.recovery)
  }

  function Percent(x: real): real {
    if x < 0.0 then 0.0 else if x > 100.0 then 100.0 else x
  }

  function TimersAfter(t: Timers): Timers {
    t.(fastMs := AtLeast(t.fastMs, 100), dispatcherIdleMs := AtLeast(t.dispatcherIdleMs, 1),
       sinkIdleMs := AtLeast(t.sinkIdleMs, 1), metricsEnable := t.metricsEnable && t.metricsPort != 0)
  }

  function QueuesAfter(q: Queues): Queues {
    var capacity := AtLeast(q.capacity, 16);
    Queues(if q.stateTtlSec == 0 then 3600 else q.stateTtlSec, capacity,
           if q.reserved >= capacity then capacity - 1 else q.reserved)
  }

  function SchedAfter(s: Sched, lowFreqMs: nat): Sched {
    Sched(Clamped(s.wait), if s.minWaitUs == 0 then s.wait.warning else s.minWaitUs, AtLeast(s.ringbufKb, 64),
          AtLeast(s.maxEventsPerPoll, 1), if s.allowlistRefreshMs == 0 then s.procRefreshMs else s.allowlistRefreshMs,
          AtLeast(s.aggregateWindowMs, 1), AtLeast(s.aggregateMaxEntries, 16),
          if s.procRefreshMs == 0 then lowFreqMs else s.procRefreshMs, AtLeast(s.maxScanThreads, 1),
          AtLeast(s.overrunWarningMs, 1), AtLeast(s.maxTargets, 1))
  }

  function CpuAfter(c: Cpu): Cpu {
    var t := RealClamped(c.percent);
    Cpu(RealTrio(Percent(t.warning), Percent(t.critical), Percent(t.recovery)),
        AtLeast(c.warningWindows, 1), AtLeast(c.criticalWindows, 1), AtLeast(c.recoveryWindows, 1))
  }

  function StorageAfter(s: Storage): Storage {
    var cache := AtLeast(s.cacheMaxMb, 1);
    var small := if cache < 4 then cache else 4;
    Storage(cache, if s.fileRotateMb == 0 || s.fileRotateMb > cache then small else s.fileRotateMb)
  }

  function NetworkAfter(n: Network): Network {
    var base, wal := AtLeast(n.retryBaseMs, 1), AtLeast(n.walMaxMb, 1);
    Network(AtLeast(n.batchSize, 1), AtLeast(n.flushMs, 1), base, AtLeast(n.retryMaxMs, base), wal,
            if n.walSegmentMb == 0 || n.walSegmentMb > wal then (if wal < 4 then wal else 4) else n.walSegmentMb)
  }

  function After(l: Limits): Limits {
    Limits(TimersAfter(l.timers), QueuesAfter(l.queues),
           l.memory.(recovery := AtLeast(l.memory.recovery, l.memory.warning)), Clamped(l.queue), Clamped(l.selfRss),
           SchedAfter(l.sched, l.timers.lowFreqMs), Process(Clamped(l.process.growth), AtLeast(l.process.windowSec, 1)),
           Io(RealClamped(l.io.awaitMs), RealClamped(l.io.util), AtLeast(l.io.maxTargets, 1)), CpuAfter(l.cpu),
           StorageAfter(l.storage), NetworkAfter(l.network))
  }

  // ---- What that amounts to ----

  lemma GroupsInRange(l: Limits)
    ensures TimersOk(TimersAfter(l.timers)) && QueuesOk(QueuesAfter(l.queues))
    ensures SchedOk(SchedAfter(l.sched, l.timers.lowFreqMs), l.timers.lowFreqMs)
    ensures IoOk(After(l).io) && CpuOk(CpuAfter(l.cpu))
    ensures StorageOk(StorageAfter(l.storage)) && NetworkOk(NetworkAfter(l.network))
  {
  }

  /** Whatever the file said, an accepted configuration is in range. */
  lemma AcceptedIsInRange(l: Limits)
    requires l.memory.critical <= l.memory.warning
    ensures InRange(After(l))
  {
    GroupsInRange(l);
    assert TimersAfter(l.timers).lowFreqMs == l.timers.lowFreqMs;
    hide TimersAfter, QueuesAfter, SchedAfter, CpuAfter, StorageAfter, NetworkAfter, TimersOk, QueuesOk, SchedOk, IoOk,
      CpuOk, StorageOk, NetworkOk;
  }

  lemma UnchangedGroups(l: Limits)
    ensures TimersAfter(l.timers) == l.timers <==> TimersOk(l.timers)
    ensures QueuesAfter(l.queues) == l.queues <==> QueuesOk(l.queues)
    ensures SchedAfter(l.sched, l.timers.lowFreqMs) == l.sched
            <==> SchedOk(l.sched, l.timers.lowFreqMs) && RefreshOk(l.sched)
    ensures After(l).io == l.io <==> IoOk(l.io)
    ensures StorageAfter(l.storage) == l.storage <==> StorageOk(l.storage)
    ensures NetworkAfter(l.network) == l.network <==> NetworkOk(l.network)
  {
  }

  lemma UnchangedCpu(c: Cpu)
    ensures CpuAfter(c) == c <==> CpuOk(c)
  {
  }

  /** validate changes nothing exactly when everything is in range already. */
  lemma UnchangedExactly(l: Limits)
    requires l.memory.critical <= l.memory.warning
    ensures After(l) == l <==> InRange(l) && RefreshOk(l.sched)
  {
    UnchangedGroups(l);
    UnchangedCpu(l.cpu);
    hide TimersAfter, QueuesAfter, SchedAfter, CpuAfter, StorageAfter, NetworkAfter, TimersOk, QueuesOk, SchedOk, IoOk,
      CpuOk, StorageOk, NetworkOk;
  }

  /**
    A second validation changes something exactly when both refresh intervals were zero and the slow collection interval
    is not: the allow list's is copied before the other one gets its default.
  */
  lemma IdempotentExactly(l: Limits)
    requires l.memory.critical <= l.memory.warning
    ensures After(After(l)) == After(l)
            <==> !(l.sched.allowlistRefreshMs == 0 && l.sched.procRefreshMs == 0 && l.timers.lowFreqMs != 0)
  {
    AcceptedIsInRange(l);
    UnchangedExactly(After(l));
    hide InRange;
  }

  // ---- No further than needed ----

  /** A value that is moved ends between where it was and where the other one is. */
  predicate Between(before: real, after: real, other: real) {
    after == before || before < after <= other || other <= after < before
  }

  predicate IntBetween(before: int, after: int, other: int) {
    after == before || before < after <= other || other <= after < before
  }

  predicate TrioBetween(before: Trio, after: Trio, other: Trio) {
    && after.warning == before.warning
    && (other.warning == before.warning ==> && IntBetween(before.critical, after.critical, other.critical)
                                            && IntBetween(before.recovery, after.recovery, other.recovery))
  }

  /** Whether two settings can be compared: critical and recovery thresholds are, next to the same warning threshold. */
  predicate RealTrioBetween(before: RealTrio, after: RealTrio, other: RealTrio) {
    && Between(before.warning, after.warning, other.warning)
    && (other.warning == after.warning ==> && Between(before.critical, after.critical, other.critical)
                                           && Between(before.recovery, after.recovery, other.recovery))
  }

  predicate SchedBetween(before: Sched, after: Sched, other: Sched) {
    && TrioBetween(before.wait, after.wait, other.wait)
    && IntBetween(before.ringbufKb, after.ringbufKb, other.ringbufKb)
    && IntBetween(before.maxEventsPerPoll, after.maxEventsPerPoll, other.maxEventsPerPoll)
    && IntBetween(before.aggregateWindowMs, after.aggregateWindowMs, other.aggregateWindowMs)
    && IntBetween(before.aggregateMaxEntries, after.aggregateMaxEntries, other.aggregateMaxEntries)
    && IntBetween(before.maxScanThreads, after.maxScanThreads, other.maxScanThreads)
    && IntBetween(before.overrunWarningMs, after.overrunWarningMs, other.overrunWarningMs)
    && IntBetween(before.maxTargets, after.maxTargets, other.maxTargets)
  }

  predicate RulesBetween(before: Limits, after: Limits, other: Limits) {
    && after.memory.warning == before.memory.warning && after.memory.critical == before.memory.critical
    && (other.memory.warning == before.memory.warning
        ==> IntBetween(before.memory.recovery, after.memory.recovery, other.memory.recovery))
    && TrioBetween(before.queue, after.queue, other.queue) && TrioBetween(before.selfRss, after.selfRss, other.selfRss)
    && TrioBetween(before.process.growth, after.process.growth, other.process.growth)
    && IntBetween(before.process.windowSec, after.process.windowSec, other.process.windowSec)
    && RealTrioBetween(before.io.awaitMs, after.io.awaitMs, other.io.awaitMs)
    && RealTrioBetween(before.io.util, after.io.util, other.io.util)
    && IntBetween(before.io.maxTargets, after.io.maxTargets, other.io.maxTargets)
  }

  predicate CpuBetween(before: Cpu, after: Cpu, other: Cpu) {
    && RealTrioBetween(before.percent, after.percent, other.percent)
    && IntBetween(before.warningWindows, after.warningWindows, other.warningWindows)
    && IntBetween(before.criticalWindows, after.criticalWindows, other.criticalWindows)
    && IntBetween(before.recoveryWindows, after.recoveryWindows, other.recoveryWindows)
  }

  predicate LoopsBetween(before: Limits, after: Limits, other: Limits) {
    && var b, a, o := before.timers, after.timers, other.timers;
    && IntBetween(b.fastMs, a.fastMs, o.fastMs) && IntBetween(b.sinkIdleMs, a.sinkIdleMs, o.sinkIdleMs)
    && IntBetween(b.dispatcherIdleMs, a.dispatcherIdleMs, o.dispatcherIdleMs)
    && var b, a, o := before.queues, after.queues, other.queues;
    && IntBetween(b.capacity, a.capacity, o.capacity)
    && (o.capacity == a.capacity ==> IntBetween(b.reserved, a.reserved, o.reserved))
    && IntBetween(before.storage.cacheMaxMb, after.storage.cacheMaxMb, other.storage.cacheMaxMb)
    && var b, a, o := before.network, after.network, other.network;
    && IntBetween(b.batchSize, a.batchSize, o.batchSize) && IntBetween(b.flushMs, a.flushMs, o.flushMs)
    && IntBetween(b.retryBaseMs, a.retryBaseMs, o.retryBaseMs) && IntBetween(b.walMaxMb, a.walMaxMb, o.walMaxMb)
    && (o.retryBaseMs == a.retryBaseMs ==> IntBetween(b.retryMaxMs, a.retryMaxMs, o.retryMaxMs))
  }

  /** The fields that get a default of their own, and those that are never moved. */
  predicate Defaulted(before: Limits, after: Limits) {
    && after.timers.lowFreqMs == before.timers.lowFreqMs && after.timers.metricsPort == before.timers.metricsPort
    && (after.timers.metricsEnable <==> before.timers.metricsEnable && before.timers.metricsPort != 0)
    && after.queues.stateTtlSec == (if before.queues.stateTtlSec == 0 then 3600 else before.queues.stateTtlSec)
    && var b, a := before.sched, after.sched;
    && a.minWaitUs == (if b.minWaitUs == 0 then b.wait.warning else b.minWaitUs)
    && a.allowlistRefreshMs == (if b.allowlistRefreshMs == 0 then b.procRefreshMs else b.allowlistRefreshMs)
    && a.procRefreshMs == (if b.procRefreshMs == 0 then before.timers.lowFreqMs else b.procRefreshMs)
    && (after.storage.fileRotateMb != before.storage.fileRotateMb ==>
          after.storage.fileRotateMb == if after.storage.cacheMaxMb < 4 then after.storage.cacheMaxMb else 4)
    && (after.network.walSegmentMb != before.network.walSegmentMb ==>
          after.network.walSegmentMb == if after.network.walMaxMb < 4 then after.network.walMaxMb else 4)
    && (0 < before.storage.fileRotateMb <= after.storage.cacheMaxMb ==>
          after.storage.fileRotateMb == before.storage.fileRotateMb)
    && (0 < before.network.walSegmentMb <= after.network.walMaxMb ==>
          after.network.walSegmentMb == before.network.walSegmentMb)
  }

  /**
    validate moves no setting further than it has to: no configuration in range has it closer to where it was. The other
    fields get the defaults, and keep a value that is in order.
  */
  lemma NoFurtherThanNeeded(l: Limits, other: Limits)
    requires InRange(other)
    ensures LoopsBetween(l, After(l), other) && RulesBetween(l, After(l), other)
    ensures SchedBetween(l.sched, After(l).sched, other.sched) && CpuBetween(l.cpu, After(l).cpu, other.cpu)
    ensures Defaulted(l, After(l))
  {
  }

  // ---- validate as it runs ----

  method ClampTrio(t: Trio) returns (r: Trio)
    ensures r == Clamped(t)
  {
    r := t;
    if r.critical < r.warning { r := r.(critical := r.warning); }
    if r.recovery > r.warning { r := r.(recovery := r.warning); }
  }

  method ClampRealTrio(t: RealTrio) returns (r: RealTrio)
    ensures r == RealClamped(t)
  {
    r := t;
    if r.critical < r.warning { r := r.(critical := r.warning); }
    if r.recovery > r.warning { r := r.(recovery := r.warning); }
  }

  /** The clamps up to the one on the aggregates; the allow list's refresh is copied before the other one is set. */
  method ClampEbpf(before: Sched) returns (s: Sched)
    ensures s == before.(wait := before.wait.(critical := AtLeast(before.wait.critical, before.wait.warning)),
                         minWaitUs := if before.minWaitUs == 0 then before.wait.warning else before.minWaitUs,
                         ringbufKb := AtLeast(before.ringbufKb, 64),
                         maxEventsPerPoll := AtLeast(before.maxEventsPerPoll, 1),
                         allowlistRefreshMs := if before.allowlistRefreshMs == 0 then before.procRefreshMs
                                               else before.allowlistRefreshMs,
                         aggregateWindowMs := AtLeast(before.aggregateWindowMs, 1),
                         aggregateMaxEntries := AtLeast(before.aggregateMaxEntries, 16))
  {
    s := before;
    if s.wait.critical < s.wait.warning { s := s.(wait := s.wait.(critical := s.wait.warning)); }
    if s.minWaitUs == 0 { s := s.(minWaitUs := s.wait.warning); }
    if s.ringbufKb < 64 { s := s.(ringbufKb := 64); }
    if s.maxEventsPerPoll == 0 { s := s.(maxEventsPerPoll := 1); }
    if s.allowlistRefreshMs == 0 { s := s.(allowlistRefreshMs := s.procRefreshMs); }
    if s.aggregateWindowMs == 0 { s := s.(aggregateWindowMs := 1); }
    if s.aggregateMaxEntries < 16 { s := s.(aggregateMaxEntries := 16); }
  }

  class MonitorConfig {
    var timers: Timers
    var clients: seq<string>
    var queues: Queues
    var memory: Trio
    var memoryRuleEnable: bool
    var queue: Trio
    var selfRss: Trio
    var sched: Sched
    var process: Process
    var io: Io
    var cpu: Cpu
    var storage: Storage
    var network: Network

    function View(): Limits
      reads this
    {
      Limits(timers, queues, memory, queue, selfRss, sched, process, io, cpu, storage, network)
    }

    constructor (l: Limits, clients: seq<string>, memoryRuleEnable: bool)
      ensures View() == l && this.clients == clients && this.memoryRuleEnable == memoryRuleEnable
    {
      timers, queues, memory, queue, selfRss, sched := l.timers, l.queues, l.memory, l.queue, l.selfRss, l.sched;
      process, io, cpu, storage, network := l.process, l.io, l.cpu, l.storage, l.network;
      this.clients, this.memoryRuleEnable := clients, memoryRuleEnable;
    }

    ghost predicate ClientsValid()
      reads this
    {
      forall i :: 0 <= i < |clients| ==> IsIpv4(clients[i])
    }

    method ClampTimers()
      modifies this`timers
      ensures timers == TimersAfter(old(timers))
    {
      if timers.fastMs < 100 { timers := timers.(fastMs := 100); }
      if timers.dispatcherIdleMs == 0 { timers := timers.(dispatcherIdleMs := 1); }
      if timers.sinkIdleMs == 0 { timers := timers.(sinkIdleMs := 1); }
      if timers.metricsPort == 0 { timers := timers.(metricsEnable := false); }
    }

    method CheckClients() returns (ok: bool)
      ensures ok <==> ClientsValid()
    {
      var i := 0;
      while i < |clients|
        invariant 0 <= i <= |clients| && forall k :: 0 <= k < i ==> IsIpv4(clients[k])
      {
        var valid := ValidIpv4(clients[i]);
        if !valid { return false; }
        i := i + 1;
      }
      return true;
    }

    method ClampQueues()
      modifies this`queues
      ensures queues == QueuesAfter(old(queues))
    {
      if queues.stateTtlSec == 0 { queues := queues.(stateTtlSec := 3600); }
      if queues.capacity < 16 { queues := queues.(capacity := 16); }
      if queues.reserved >= queues.capacity { queues := queues.(reserved := queues.capacity - 1); }
    }

    method ClampSched()
      modifies this`sched
      ensures sched == SchedAfter(old(sched), timers.lowFreqMs)
    {
      var s := ClampEbpf(sched);
      if s.procRefreshMs == 0 { s := s.(procRefreshMs := timers.lowFreqMs); }
      if s.maxScanThreads == 0 { s := s.(maxScanThreads := 1); }
      if s.overrunWarningMs == 0 { s := s.(overrunWarningMs := 1); }
      if s.wait.recovery > s.wait.warning { s := s.(wait := s.wait.(recovery := s.wait.warning)); }
      if s.maxTargets == 0 { s := s.(maxTargets := 1); }
      sched := s;
    }

    method ClampIo()
      modifies this`io
      ensures io == Io(RealClamped(old(io).awaitMs), RealClamped(old(io).util), AtLeast(old(io).maxTargets, 1))
    {
      var awaitMs := ClampRealTrio(io.awaitMs);
      var util := ClampRealTrio(io.util);
      io := io.(awaitMs := awaitMs, util := util);
      if io.maxTargets == 0 { io := io.(maxTargets := 1); }
    }

    method ClampCpu()
      modifies this`cpu
      ensures cpu == CpuAfter(old(cpu))
    {
      var t := ClampRealTrio(cpu.percent);
      t := RealTrio(Percent(t.warning), Percent(t.critical), Percent(t.recovery));
      cpu := cpu.(percent := t);
      if cpu.warningWindows == 0 { cpu := cpu.(warningWindows := 1); }
      if cpu.criticalWindows == 0 { cpu := cpu.(criticalWindows := 1); }
      if cpu.recoveryWindows == 0 { cpu := cpu.(recoveryWindows := 1); }
    }

    method ClampStorage()
      modifies this`storage
      ensures storage == StorageAfter(old(storage))
    {
      if storage.cacheMaxMb == 0 { storage := storage.(cacheMaxMb := 1); }
      if storage.fileRotateMb == 0 || storage.fileRotateMb > storage.cacheMaxMb {
        var smaller := if storage.cacheMaxMb < 4 then storage.cacheMaxMb else 4;
        storage := storage.(fileRotateMb := AtLeast(smaller, 1));
      }
    }

    method ClampNetwork()
      modifies this`network
      ensures network == NetworkAfter(old(network))
    {
      var n := network;
      if n.batchSize == 0 { n := n.(batchSize := 1); }
      if n.flushMs == 0 { n := n.(flushMs := 1); }
      if n.retryBaseMs == 0 { n := n.(retryBaseMs := 1); }
      if n.retryMaxMs < n.retryBaseMs { n := n.(retryMaxMs := n.retryBaseMs); }
      if n.walMaxMb == 0 { n := n.(walMaxMb := 1); }
      if n.walSegmentMb == 0 || n.walSegmentMb > n.walMaxMb {
        n := n.(walSegmentMb := if n.walMaxMb < 4 then n.walMaxMb else 4);
      }
      network := n;
    }

    /**
      validate. It succeeds exactly when the client list and the memory thresholds are in order; a failed check leaves
      every later field as it was.
    */
    method Validate() returns (ok: bool)
      modifies this
      ensures clients == old(clients) && (ok <==> ClientsValid() && old(memory).critical <= old(memory).warning)
      ensures memoryRuleEnable == (old(memoryRuleEnable) && (ok || !ClientsValid()))
      ensures ok ==> View() == After(old(View()))
      ensures !ok ==> View() == old(View()).(timers := TimersAfter(old(timers)),
                                             queues := if ClientsValid() then QueuesAfter(old(queues)) else old(queues))
    {
      ghost var before := View();
      hide SchedAfter, CpuAfter, StorageAfter, NetworkAfter, RealClamped;
      ClampTimers();
      var valid := CheckClients();
      if !valid { return false; }
      ClampQueues();
      if memory.critical > memory.warning {
        memoryRuleEnable := false;
        return false;
      }
      hide TimersAfter, QueuesAfter, ClientsValid;
      if memory.recovery < memory.warning { memory := memory.(recovery := memory.warning); }
      queue := ClampTrio(queue);
      selfRss := ClampTrio(selfRss);
      ClampRest(before);
      return true;
    }

    method ClampRest(ghost before: Limits)
      requires timers.lowFreqMs == before.timers.lowFreqMs && sched == before.sched && process == before.process
      requires io == before.io && cpu == before.cpu && storage == before.storage && network == before.network
      modifies this`sched, this`process, this`io, this`cpu, this`storage, this`network
      ensures sched == After(before).sched && process == After(before).process && io == After(before).io
      ensures cpu == After(before).cpu && storage == After(before).storage && network == After(before).network
    {
      hide TimersAfter, QueuesAfter, SchedAfter, CpuAfter, StorageAfter, NetworkAfter, Clamped, RealClamped;
      ClampSched();
      var growth := ClampTrio(process.growth);
      process := process.(growth := growth);
      if process.windowSec == 0 { process := process.(windowSec := 1); }
      ClampIo();
      ClampCpu();
      ClampStorage();
      ClampNetwork();
    }
  }
}
