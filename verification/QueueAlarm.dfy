/** The queue-pressure alarm: dropped events trigger it and keep it from recovering. */
module QueueAlarm {
  import opened Sequences
  import opened Events
  import opened AlarmRule
  import opened AlarmHistory

  /** The counters of the source queues, the sink queues and the dispatchers, all running totals. */
  datatype QueueSnapshot = QueueSnapshot(capacity: nat, depth: nat, dropped: nat, droppedCritical: nat,
                                         sinkCapacity: nat, sinkDepth: nat, sinkDropped: nat, sinkDroppedCritical: nat,
                                         dispatcherFailures: nat) {
    predicate Looked() { capacity != 0 || sinkCapacity != 0 }

    function Drops(): nat { dropped + sinkDropped + dispatcherFailures }

    function CriticalDrops(): nat { droppedCritical + sinkDroppedCritical }

    function Percent(): real {
      var source := if capacity == 0 then 0.0 else depth as real * 100.0 / capacity as real;
      var sink := if sinkCapacity == 0 then 0.0 else sinkDepth as real * 100.0 / sinkCapacity as real;
      if source < sink then sink else source
    }
  }

  /** The fuller side of the queues, in percent; a side without capacity counts as empty. */
  lemma PercentIsTheFullest(q: QueueSnapshot)
    ensures q.capacity > 0 ==> q.Percent() * q.capacity as real >= q.depth as real * 100.0
    ensures q.sinkCapacity > 0 ==> q.Percent() * q.sinkCapacity as real >= q.sinkDepth as real * 100.0
    ensures || q.Percent() == 0.0
            || (q.capacity > 0 && q.Percent() * q.capacity as real == q.depth as real * 100.0)
            || (q.sinkCapacity > 0 && q.Percent() * q.sinkCapacity as real == q.sinkDepth as real * 100.0)
    ensures q.Percent() >= 0.0
  {
    if q.capacity > 0 { Share(q.depth, q.capacity, q.Percent()); }
    if q.sinkCapacity > 0 { Share(q.sinkDepth, q.sinkCapacity, q.Percent()); }
  }

  lemma Share(depth: nat, capacity: nat, percent: real)
    requires capacity > 0
    ensures var share := depth as real * 100.0 / capacity as real;
            && share * capacity as real == depth as real * 100.0 && share >= 0.0
            && (percent >= share ==> percent * capacity as real >= depth as real * 100.0)
  {
    var share := depth as real * 100.0 / capacity as real;
    if percent >= share { assert (percent - share) * capacity as real >= 0.0; }
  }

  /** The totals as of the previous look. */
  datatype Seen = Seen(drops: nat, criticalDrops: nat, failures: nat)

  function SampleOf(seen: Seen, q: QueueSnapshot, nowMs: nat): Sample {
    var lost := q.Drops() > seen.drops || q.dispatcherFailures > seen.failures;
    Sample(q.Percent(), lost, q.CriticalDrops() > seen.criticalDrops, lost, nowMs)
  }

  function SeenOf(q: QueueSnapshot): Seen {
    Seen(q.Drops(), q.CriticalDrops(), q.dispatcherFailures)
  }

  class QueueAlarm {
    const rule: Rule
    const cooldownMs: nat
    const enabled: bool
    var context: Context
    var lastDrops: nat
    var lastCriticalDrops: nat
    var lastFailures: nat

    constructor (rule: Rule, cooldownMs: nat, enabled: bool)
      ensures this.rule == rule && this.cooldownMs == cooldownMs && this.enabled == enabled
      ensures context == FRESH && lastDrops == lastCriticalDrops == lastFailures == 0
    {
      this.rule, this.cooldownMs, this.enabled := rule, cooldownMs, enabled;
      context, lastDrops, lastCriticalDrops, lastFailures := FRESH, 0, 0, 0;
    }

    /** evaluate_queue. */
    method EvaluateQueue(q: QueueSnapshot, nowMs: nat) returns (event: Option<Level>)
      modifies this
      ensures !enabled || !q.Looked() ==> event == None && context == old(context)
                                          && lastDrops == old(lastDrops) && lastCriticalDrops == old(lastCriticalDrops)
                                          && lastFailures == old(lastFailures)
      ensures enabled && q.Looked() ==>
                && Verdict(context, event)
                   == Evaluate(rule, cooldownMs, old(context),
                               SampleOf(Seen(old(lastDrops), old(lastCriticalDrops), old(lastFailures)), q, nowMs))
                && Seen(lastDrops, lastCriticalDrops, lastFailures) == SeenOf(q)
    {
      if !enabled || (q.capacity == 0 && q.sinkCapacity == 0) { return None; }
      var newDrop := q.Drops() > lastDrops;
      var newCriticalDrop := q.CriticalDrops() > lastCriticalDrops;
      var newFailure := q.dispatcherFailures > lastFailures;
      lastDrops := q.Drops();
      lastCriticalDrops := q.CriticalDrops();
      lastFailures := q.dispatcherFailures;
      context, event := EvaluateThreshold(context, rule, cooldownMs,
                                          Sample(q.Percent(), newDrop || newFailure, newCriticalDrop,
                                                 newDrop || newFailure, nowMs));
    }
  }

  // ---- Runs ----

  datatype Look = Look(queue: QueueSnapshot, nowMs: nat)

  const NOTHING_LOST := QueueSnapshot(0, 0, 0, 0, 0, 0, 0, 0, 0)

  /** The counters as they were a look earlier; they start at zero. */
  function Before(looks: seq<Look>, i: nat): QueueSnapshot
    requires i <= |looks|
  {
    if i == 0 then NOTHING_LOST else looks[i - 1].queue
  }

  function SeenBefore(looks: seq<Look>, i: nat): Seen
    requires i <= |looks|
  {
    SeenOf(Before(looks, i))
  }

  /** Something was dropped between two looks: by a source queue, by a sink queue, or by a dispatcher. */
  predicate Lost(before: QueueSnapshot, q: QueueSnapshot) {
    before.dropped + before.sinkDropped + before.dispatcherFailures
    < q.dropped + q.sinkDropped + q.dispatcherFailures
  }

  predicate LostCritical(before: QueueSnapshot, q: QueueSnapshot) {
    before.droppedCritical + before.sinkDroppedCritical < q.droppedCritical + q.sinkDroppedCritical
  }

  /** The samples that a run of looks feeds to the alarm. */
  function Samples(looks: seq<Look>): (s: seq<Sample>)
    ensures |s| == |looks|
    ensures forall i :: 0 <= i < |looks| ==> s[i] == SampleOf(SeenBefore(looks, i), looks[i].queue, looks[i].nowMs)
  {
    seq(|looks|, i requires 0 <= i < |looks| => SampleOf(SeenBefore(looks, i), looks[i].queue, looks[i].nowMs))
  }

  /** No counter is higher in q than in r. */
  predicate CountersUpTo(q: QueueSnapshot, r: QueueSnapshot) {
    && q.dropped <= r.dropped && q.sinkDropped <= r.sinkDropped && q.dispatcherFailures <= r.dispatcherFailures
    && q.droppedCritical <= r.droppedCritical && q.sinkDroppedCritical <= r.sinkDroppedCritical
  }

  /** The counters only count up. */
  ghost predicate Counting(looks: seq<Look>) {
    forall i, j :: 0 <= i <= j < |looks| ==> CountersUpTo(looks[i].queue, looks[j].queue)
  }

  lemma SampleMeans(looks: seq<Look>, i: nat)
    requires i < |looks|
    ensures var s, before, q := Samples(looks)[i], Before(looks, i), looks[i].queue;
            && (s.warningTrigger <==> Lost(before, q) || before.dispatcherFailures < q.dispatcherFailures)
            && (s.criticalTrigger <==> LostCritical(before, q)) && s.value == q.Percent()
  {
    hide QueueSnapshot.Percent;
  }

  lemma {:induction false} NothingLostSince(looks: seq<Look>, k: nat)
    requires Counting(looks) && k < |looks|
    requires forall i :: k <= i < |looks| ==> !Samples(looks)[i].warningTrigger && !Samples(looks)[i].criticalTrigger
    ensures CountersUpTo(looks[|looks| - 1].queue, Before(looks, k))
    decreases |looks| - k
  {
    hide Samples, QueueSnapshot.Percent;
    SampleMeans(looks, k);
    assert k > 0 ==> CountersUpTo(looks[k - 1].queue, looks[k].queue);
    assert CountersUpTo(looks[k].queue, Before(looks, k));
    if k + 1 < |looks| {
      NothingLostSince(looks, k + 1);
      assert Before(looks, k + 1) == looks[k].queue;
    }
  }

  /** When the alarm recovers, nothing has been dropped over the last `recoveryWindows` looks. */
  lemma RecoveryMeansNothingLost(rule: Rule, cooldownMs: nat, looks: seq<Look>)
    requires Counting(looks) && looks != [] && rule.recoveryWindows > 0
    requires EventAt(rule, cooldownMs, Samples(looks), |looks| - 1) == Some(Recovery)
    ensures rule.recoveryWindows <= |looks|
    ensures CountersUpTo(looks[|looks| - 1].queue, Before(looks, |looks| - rule.recoveryWindows))
  {
    RecoveryEndsRecovering(rule, cooldownMs, Samples(looks));
    NothingLostSince(looks, |looks| - rule.recoveryWindows);
  }

  /**
    A look that finds new drops leaves the alarm raised, except where the queues are also at the critical threshold:
    such a look counts as a critical hit, and the drops themselves say nothing until enough of those have come.
  */
  lemma DropsRaiseTheAlarm(rule: Rule, cooldownMs: nat, looks: seq<Look>)
    requires looks != []
    requires Lost(Before(looks, |looks| - 1), looks[|looks| - 1].queue)
    ensures var n := |looks| - 1;
            var before := After(rule, cooldownMs, Samples(looks)[..n]);
            var criticalHit := Beyond(rule, looks[n].queue.Percent(), rule.critical);
            var criticalDrop := LostCritical(Before(looks, n), looks[n].queue);
            After(rule, cooldownMs, Samples(looks)).state == Normal
            <==> before.state == Normal && criticalHit && !criticalDrop
                 && before.criticalHitCount + 1 < rule.criticalWindows
  {
    var n := |looks| - 1;
    var s := Samples(looks);
    SampleMeans(looks, n);
    hide Samples, Lost, LostCritical, QueueSnapshot.Percent;
    assert After(rule, cooldownMs, s) == Evaluate(rule, cooldownMs, After(rule, cooldownMs, s[..n]), s[n]).context;
  }

  /** The last look finds new drops, and no queue longer than it can be. */
  predicate EndsLossy(looks: seq<Look>) {
    && looks != [] && Lost(Before(looks, |looks| - 1), looks[|looks| - 1].queue)
    && var q := looks[|looks| - 1].queue;
    q.depth <= q.capacity && q.sinkDepth <= q.sinkCapacity
  }

  lemma AtMostFull(depth: nat, capacity: nat)
    requires depth <= capacity && capacity > 0
    ensures depth as real * 100.0 / capacity as real <= 100.0
  {
    assert depth as real * 100.0 <= capacity as real * 100.0;
  }

  lemma PercentAtMostFull(q: QueueSnapshot)
    requires q.depth <= q.capacity && q.sinkDepth <= q.sinkCapacity
    ensures q.Percent() <= 100.0
  {
    if q.capacity > 0 { AtMostFull(q.depth, q.capacity); }
    if q.sinkCapacity > 0 { AtMostFull(q.sinkDepth, q.sinkCapacity); }
  }

  ghost predicate AlwaysRaised(rule: Rule, cooldownMs: nat) {
    forall looks | EndsLossy(looks) :: After(rule, cooldownMs, Samples(looks)).state != Normal
  }

  /** The first look at a full queue that has dropped an event. */
  function FullAndLossy(): (looks: seq<Look>)
    ensures EndsLossy(looks) && looks[0].queue.Percent() == 100.0
  {
    [Look(QueueSnapshot(1, 1, 1, 0, 0, 0, 0, 0, 0), 1)]
  }

  /** The alarm never stays silent over new drops exactly when one critical hit is enough, or no queue can cause one. */
  lemma NeverSilentExactly(rule: Rule, cooldownMs: nat)
    requires rule.greaterOrEqual
    ensures AlwaysRaised(rule, cooldownMs) <==> rule.criticalWindows <= 1 || rule.critical > 100.0
  {
    if rule.criticalWindows <= 1 || rule.critical > 100.0 {
      forall looks: seq<Look> | EndsLossy(looks) ensures After(rule, cooldownMs, Samples(looks)).state != Normal {
        DropsRaiseTheAlarm(rule, cooldownMs, looks);
        PercentAtMostFull(looks[|looks| - 1].queue);
      }
    } else {
      DropsRaiseTheAlarm(rule, cooldownMs, FullAndLossy());
    }
  }
}
