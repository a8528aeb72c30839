/** The receiver of a line: a reader that takes the fields in their order and makes the event of them again. */
module EventReader {
  import opened Sequences
  import opened WalNames
  import opened Events
  import opened JsonText
  import opened JsonLine
  import opened EventSerializer

  // ---- Words ----

  function LevelOf(text: string): Option<Level> {
    if text == "error" then Some(Critical)
    else if text == "warning" then Some(Warning)
    else if text == "recovery" then Some(Recovery)
    else if text == "info" then Some(Info)
    else None
  }

  function StatusOf(text: string): Option<Status> {
    if text == "active" then Some(Active)
    else if text == "recovering" then Some(Recovering)
    else if text == "resolved" then Some(Resolved)
    else None
  }

  function MonitorTypeOf(text: string): Option<EventType> {
    if text == "monitor_started" then Some(MonitorStarted)
    else if text == "monitor_overrun" then Some(MonitorOverrun)
    else if text == "monitor_queue_pressure" then Some(QueuePressure)
    else if text == "monitor_storage_pressure" then Some(StoragePressure)
    else if text == "monitor_collector_failure" then Some(CollectorFailure)
    else if text == "monitor_memory_pressure" then Some(MonitorMemoryPressure)
    else None
  }

  function RiskTypeOf(text: string): Option<EventType> {
    if text == "memory_pressure" then Some(MemoryPressure)
    else if text == "sched_delay_risk" then Some(SchedDelayRisk)
    else if text == "io_delay_risk" then Some(IoDelayRisk)
    else if text == "cpu_usage_risk" then Some(CpuUsageRisk)
    else if text == "whitelisted_process_memory_risk" then Some(WhitelistedProcessMemoryRisk)
    else None
  }

  function TypeOf(text: string): Option<EventType> {
    var monitors := MonitorTypeOf(text);
    if monitors.Some? then monitors else RiskTypeOf(text)
  }

  /** Every level, status and type is written as the word that stands for it. */
  lemma LevelReadBack(level: Level)
    ensures LevelOf(LevelText(level)) == Some(level)
  {
    match level
    case Critical => assert LevelText(level) == "error";
    case Warning => assert |LevelText(level)| == 7;
    case Recovery => assert |LevelText(level)| == 8;
    case Info => assert |LevelText(level)| == 4;
  }

  lemma StatusReadBack(status: Status)
    ensures StatusOf(StatusText(status)) == Some(status)
  {
    match status
    case Active => assert |StatusText(status)| == 6;
    case Recovering => assert |StatusText(status)| == 10;
    case Resolved => assert |StatusText(status)| == 8;
  }

  lemma TypeReadBack(t: EventType)
    ensures TypeOf(TypeText(t)) == Some(t)
  {
    if t.MonitorStarted? || t.MonitorOverrun? { assert TypeText(t)[8] == if t.MonitorStarted? then 's' else 'o'; }
    if t.MemoryPressure? { assert TypeText(t)[1] == 'e'; }
  }

  // ---- Fields ----

  function TextOf(m: (string, Value), name: string): Option<string> {
    if m.0 == name && m.1.Text? then Some(m.1.text) else None
  }

  function IntegerOf(m: (string, Value), name: string): Option<int> {
    if m.0 == name && m.1.Number? then IntOf(m.1.number) else None
  }

  function CountOf(m: (string, Value), name: string): Option<nat> {
    var n := IntegerOf(m, name);
    if n.Some? && n.value >= 0 then Some(n.value) else None
  }

  function DoubleOf(m: (string, Value), name: string): Option<int> {
    if m.0 == name && m.1.Number? then ThousandthsOf(m.1.number) else None
  }

  // ---- The groups of fields, filled into an event one after the other ----

  function OriginOf(ms: Members): Option<DeviceConfig>
    requires |ms| == 4
  {
    var device, platform := TextOf(ms[0], "device_id"), TextOf(ms[1], "platform");
    var software, config := TextOf(ms[2], "software_version"), TextOf(ms[3], "config_version");
    if device.None? || platform.None? || software.None? || config.None? then None
    else Some(DeviceConfig(device.value, platform.value, software.value, config.value))
  }

  /** The event id is the device's name, a dash, and the event's number. */
  function WithNumber(e: InternalEvent, device: string, ms: Members): Option<InternalEvent>
    requires |ms| == 1
  {
    var id := TextOf(ms[0], "event_id");
    if id.None? || !(device + "-" <= id.value) then None
    else
      var n := DecimalOf(id.value[|device| + 1..]);
      if n.None? then None else Some(e.(sequence := n.value))
  }

  function WithClocks(e: Option<InternalEvent>, ms: Members): Option<InternalEvent>
    requires |ms| == 3
  {
    var realtime := CountOf(ms[0], "timestamp_ms");
    var monotonic, boottime := CountOf(ms[1], "monotonic_ms"), CountOf(ms[2], "boottime_ms");
    if e.None? || realtime.None? || monotonic.None? || boottime.None? then None
    else Some(e.value.(realtimeMs := realtime.value, monotonicMs := monotonic.value, boottimeMs := boottime.value))
  }

  function WithKind(e: Option<InternalEvent>, ms: Members): Option<InternalEvent>
    requires |ms| == 5
  {
    var ruleId, word := CountOf(ms[1], "rule_id"), TextOf(ms[2], "event_type");
    var level, status := TextOf(ms[3], "level"), TextOf(ms[4], "status");
    if e.None? || TextOf(ms[0], "module") != Some("linux_stability_monitor") || ruleId.None? then None
    else if word.None? || level.None? || status.None? then None
    else WithWords(e.value.(ruleId := ruleId.value), TypeOf(word.value), LevelOf(level.value), StatusOf(status.value))
  }

  function WithWords(e: InternalEvent, t: Option<EventType>, level: Option<Level>, status: Option<Status>)
    : Option<InternalEvent>
  {
    if t.None? || level.None? || status.None? then None
    else Some(e.(eventType := t.value, level := level.value, status := status.value))
  }

  function WithSubject(e: Option<InternalEvent>, ms: Members): Option<InternalEvent>
    requires |ms| == 3
  {
    var target, pid, tid := TextOf(ms[0], "target"), IntegerOf(ms[1], "pid"), IntegerOf(ms[2], "tid");
    if e.None? || target.None? || pid.None? || tid.None? then None
    else Some(e.value.(target := target.value, pid := pid.value, tid := tid.value))
  }

  function WithMeasured(e: Option<InternalEvent>, ms: Members): Option<InternalEvent>
    requires |ms| == 3
  {
    var value, warning := DoubleOf(ms[0], "value"), DoubleOf(ms[1], "warning_threshold");
    var critical := DoubleOf(ms[2], "critical_threshold");
    if e.None? || value.None? || warning.None? || critical.None? then None
    else
      Some(e.value.(value := value.value, warningThreshold := warning.value, criticalThreshold := critical.value))
  }

  function WithCounted(e: Option<InternalEvent>, ms: Members): Option<InternalEvent>
    requires |ms| == 5
  {
    var window, hits := CountOf(ms[0], "window_sec"), CountOf(ms[1], "continuous_hit_count");
    var first, last := CountOf(ms[2], "first_seen_ms"), CountOf(ms[3], "last_seen_ms");
    var count := CountOf(ms[4], "hit_count");
    if e.None? || window.None? || hits.None? || first.None? || last.None? || count.None? then None
    else Some(e.value.(windowSec := window.value, continuousHits := hits.value, firstSeenMs := first.value,
                       lastSeenMs := last.value, hitCount := count.value))
  }

  function ItemsOf(entries: seq<(string, string)>): Option<seq<(string, int)>> {
    if entries == [] then Some([])
    else
      var first, others := ThousandthsOf(entries[0].1), ItemsOf(entries[1..]);
      if first.None? || others.None? then None else Some([(entries[0].0, first.value)] + others.value)
  }

  /** Every entry that is there counts. */
  function WithEvidence(e: Option<InternalEvent>, ms: Members): Option<InternalEvent>
    requires |ms| == 1
  {
    if e.None? || ms[0].0 != "evidence" || !ms[0].1.Table? then None
    else
      var items := ItemsOf(ms[0].1.entries);
      if items.None? then None else Some(e.value.(evidenceCount := |items.value|, evidence := items.value))
  }

  const BLANK := InternalEvent(0, 0, 0, 0, 0, MonitorStarted, Info, Active, "", 0, 0, 0, 0, 0, 0, 0, 0, 0, 0, 0, [])

  function EventOf(ms: Members): Option<(DeviceConfig, InternalEvent)> {
    if |ms| != 25 then None
    else
      var config := OriginOf(ms[1..5]);
      if config.None? then None
      else
        var named := WithNumber(BLANK, config.value.deviceId, ms[..1]);
        var dated := WithKind(WithClocks(named, ms[5..8]), ms[8..13]);
        var measured := WithMeasured(WithSubject(dated, ms[13..16]), ms[16..19]);
        var all := WithEvidence(WithCounted(measured, ms[19..24]), ms[24..]);
        if all.None? then None else Some((config.value, all.value))
  }

  /** What the receiver makes of a line. */
  function Received(line: string): Option<(DeviceConfig, InternalEvent)> {
    var ms := ReadLine(line);
    if ms.None? then None else EventOf(ms.value)
  }

  // ---- The receiver undoes the writer ----

  lemma OriginReadBack(c: DeviceConfig)
    ensures OriginOf(Origin(c)) == Some(c)
  {
  }

  lemma NumberReadBack(b: InternalEvent, c: DeviceConfig, e: InternalEvent)
    ensures WithNumber(b, c.deviceId, EventId(c, e)) == Some(b.(sequence := e.sequence))
  {
    IntReadBack(e.sequence);
    var id := c.deviceId + "-" + IntText(e.sequence);
    assert id[|c.deviceId| + 1..] == IntText(e.sequence);
    SequenceIsDecimal(e.sequence);
    hide IntText, DecimalOf;
  }

  lemma SequenceIsDecimal(n: nat)
    ensures DecimalOf(IntText(n)) == Some(n)
  {
    IntReadBack(n);
    DecimalValue(n);
  }

  lemma CountReadBack(name: string, n: nat)
    ensures CountOf((name, Number(IntText(n))), name) == Some(n)
  {
    IntReadBack(n);
  }

  lemma ClocksReadBack(b: InternalEvent, e: InternalEvent)
    ensures WithClocks(Some(b), Clocks(e))
            == Some(b.(realtimeMs := e.realtimeMs, monotonicMs := e.monotonicMs, boottimeMs := e.boottimeMs))
  {
    CountReadBack("timestamp_ms", e.realtimeMs);
    CountReadBack("monotonic_ms", e.monotonicMs);
    CountReadBack("boottime_ms", e.boottimeMs);
    hide CountOf, IntText;
  }

  lemma KindReadBack(b: InternalEvent, e: InternalEvent)
    ensures WithKind(Some(b), Kind(e))
            == Some(b.(ruleId := e.ruleId, eventType := e.eventType, level := e.level, status := e.status))
  {
    CountReadBack("rule_id", e.ruleId);
    TypeReadBack(e.eventType);
    LevelReadBack(e.level);
    StatusReadBack(e.status);
    hide CountOf, IntText, TypeOf, TypeText, LevelOf, LevelText, StatusOf, StatusText;
  }

  lemma SubjectReadBack(b: InternalEvent, e: InternalEvent)
    ensures WithSubject(Some(b), Subject(e)) == Some(b.(target := e.target, pid := e.pid, tid := e.tid))
  {
    IntReadBack(e.pid);
    IntReadBack(e.tid);
    hide IntOf, IntText;
  }

  lemma MeasuredReadBack(b: InternalEvent, e: InternalEvent)
    ensures WithMeasured(Some(b), Measured(e))
            == Some(b.(value := e.value, warningThreshold := e.warningThreshold,
                       criticalThreshold := e.criticalThreshold))
  {
    ThousandthsReadBack(e.value);
    ThousandthsReadBack(e.warningThreshold);
    ThousandthsReadBack(e.criticalThreshold);
    hide ThousandthsOf, Fixed3;
  }

  lemma CountedReadBack(b: InternalEvent, e: InternalEvent)
    ensures WithCounted(Some(b), Counted(e))
            == Some(b.(windowSec := e.windowSec, continuousHits := e.continuousHits, firstSeenMs := e.firstSeenMs,
                       lastSeenMs := e.lastSeenMs, hitCount := e.hitCount))
  {
    CountReadBack("window_sec", e.windowSec);
    CountReadBack("continuous_hit_count", e.continuousHits);
    CountReadBack("first_seen_ms", e.firstSeenMs);
    CountReadBack("last_seen_ms", e.lastSeenMs);
    CountReadBack("hit_count", e.hitCount);
    hide CountOf, IntText;
  }

  lemma {:induction false} ItemsReadBack(items: seq<(string, int)>)
    ensures ItemsOf(EvidenceEntries(items)) == Some(items)
  {
    if items != [] {
      ItemsReadBack(items[1..]);
      ThousandthsReadBack(items[0].1);
      assert EvidenceEntries(items)[1..] == EvidenceEntries(items[1..]);
      HeadTail(items);
      hide ThousandthsOf, Fixed3;
    }
  }

  lemma EvidenceReadBack(b: InternalEvent, e: InternalEvent)
    ensures WithEvidence(Some(b), Evidence(e)) == Some(b.(evidenceCount := |Shown(e)|, evidence := Shown(e)))
  {
    ItemsReadBack(Shown(e));
    hide ItemsOf, EvidenceEntries, Shown;
  }

  /** The groups lie one behind the other. */
  lemma Groups(c: DeviceConfig, e: InternalEvent)
    ensures var ms := MembersOf(c, e);
            && |ms| == 25 && ms[..1] == EventId(c, e) && ms[1..5] == Origin(c) && ms[5..8] == Clocks(e)
            && ms[8..13] == Kind(e) && ms[13..16] == Subject(e) && ms[16..19] == Measured(e)
            && ms[19..24] == Counted(e) && ms[24..] == Evidence(e)
  {
    GroupSizes(c, e);
    hide EventId, Origin, Clocks, Kind, Subject, Measured, Counted, Evidence;
  }

  lemma GroupSizes(c: DeviceConfig, e: InternalEvent)
    ensures |EventId(c, e)| == |Evidence(e)| == 1 && |Origin(c)| == 4
    ensures |Clocks(e)| == |Subject(e)| == |Measured(e)| == 3 && |Kind(e)| == |Counted(e)| == 5
  {
  }

  /** The event as far as it is written: the evidence up to its count. */
  function AsWritten(e: InternalEvent): InternalEvent {
    e.(evidenceCount := |Shown(e)|, evidence := Shown(e))
  }

  lemma FieldsReadBack(c: DeviceConfig, e: InternalEvent)
    ensures EventOf(MembersOf(c, e)) == Some((c, AsWritten(e)))
  {
    Groups(c, e);
    OriginReadBack(c);
    var b := BLANK;
    NumberReadBack(b, c, e);
    b := b.(sequence := e.sequence);
    ClocksReadBack(b, e);
    b := b.(realtimeMs := e.realtimeMs, monotonicMs := e.monotonicMs, boottimeMs := e.boottimeMs);
    KindReadBack(b, e);
    b := b.(ruleId := e.ruleId, eventType := e.eventType, level := e.level, status := e.status);
    SubjectReadBack(b, e);
    b := b.(target := e.target, pid := e.pid, tid := e.tid);
    MeasuredReadBack(b, e);
    b := b.(value := e.value, warningThreshold := e.warningThreshold, criticalThreshold := e.criticalThreshold);
    CountedReadBack(b, e);
    b := b.(windowSec := e.windowSec, continuousHits := e.continuousHits, firstSeenMs := e.firstSeenMs,
            lastSeenMs := e.lastSeenMs, hitCount := e.hitCount);
    EvidenceReadBack(b, e);
    hide MembersOf, OriginOf, Origin, WithNumber, EventId, WithClocks, Clocks, WithKind, Kind, WithSubject, Subject,
      WithMeasured, Measured, WithCounted, Counted, WithEvidence, Evidence, Shown;
  }

  /** A receiver gets the device and the event back from the line, each field as the monitor had it. */
  lemma EventReadBack(c: DeviceConfig, e: InternalEvent)
    requires CleanConfig(c) && CleanEvent(e)
    ensures Received(Line(MembersOf(c, e))) == Some((c, AsWritten(e)))
  {
    EventRoundTrip(c, e);
    FieldsReadBack(c, e);
    hide ReadLine, EventOf, Line, MembersOf;
  }

  /** A line says everything: clean events with the same line agree in every field that is written. */
  lemma LinesDetermineEvents(c: DeviceConfig, e: InternalEvent, d: DeviceConfig, f: InternalEvent)
    requires CleanConfig(c) && CleanEvent(e) && CleanConfig(d) && CleanEvent(f)
    requires Line(MembersOf(c, e)) == Line(MembersOf(d, f))
    ensures c == d && AsWritten(e) == AsWritten(f)
  {
    EventReadBack(c, e);
    EventReadBack(d, f);
    hide *;
  }
}
