/** EventSerializer::to_json_line: the line it appends piece by piece, and what a reader gets back from it. */
module EventSerializer {
  import opened Sequences
  import opened WalNames
  import opened Events
  import opened JsonText
  import opened JsonLine
  import Framing

  datatype EventType =
    | MonitorStarted | MemoryPressure | MonitorOverrun | QueuePressure | StoragePressure | CollectorFailure
    | MonitorMemoryPressure | SchedDelayRisk | IoDelayRisk | CpuUsageRisk | WhitelistedProcessMemoryRisk

  datatype Status = Active | Recovering | Resolved

  datatype DeviceConfig = DeviceConfig(deviceId: string, platform: string, softwareVersion: string,
                                       configVersion: string)

  /** Doubles are given in thousandths; the evidence array is written up to evidenceCount or its end. */
  datatype InternalEvent = InternalEvent(
    sequence: nat, realtimeMs: nat, monotonicMs: nat, boottimeMs: nat, ruleId: nat, eventType: EventType, level: Level,
    status: Status, target: string, pid: int, tid: int, value: int, warningThreshold: int, criticalThreshold: int,
    windowSec: nat, continuousHits: nat, firstSeenMs: nat, lastSeenMs: nat, hitCount: nat,
    evidenceCount: nat, evidence: seq<(string, int)>)

  function LevelText(level: Level): string {
    match level
    case Critical => "error"
    case Warning => "warning"
    case Recovery => "recovery"
    case Info => "info"
  }

  function StatusText(status: Status): string {
    match status
    case Active => "active"
    case Recovering => "recovering"
    case Resolved => "resolved"
  }

  function TypeText(t: EventType): string {
    match t
    case MonitorStarted => "monitor_started"
    case MemoryPressure => "memory_pressure"
    case MonitorOverrun => "monitor_overrun"
    case QueuePressure => "monitor_queue_pressure"
    case StoragePressure => "monitor_storage_pressure"
    case CollectorFailure => "monitor_collector_failure"
    case MonitorMemoryPressure => "monitor_memory_pressure"
    case SchedDelayRisk => "sched_delay_risk"
    case IoDelayRisk => "io_delay_risk"
    case CpuUsageRisk => "cpu_usage_risk"
    case WhitelistedProcessMemoryRisk => "whitelisted_process_memory_risk"
  }

  // ---- The members of a line ----

  function EventId(c: DeviceConfig, e: InternalEvent): Members {
    [("event_id", Text(c.deviceId + "-" + IntText(e.sequence)))]
  }

  function Origin(c: DeviceConfig): Members {
    [("device_id", Text(c.deviceId)), ("platform", Text(c.platform)), ("software_version", Text(c.softwareVersion)),
     ("config_version", Text(c.configVersion))]
  }

  function Clocks(e: InternalEvent): Members {
    [("timestamp_ms", Number(IntText(e.realtimeMs))), ("monotonic_ms", Number(IntText(e.monotonicMs))),
     ("boottime_ms", Number(IntText(e.boottimeMs)))]
  }

  function Kind(e: InternalEvent): Members {
    [("module", Text("linux_stability_monitor")), ("rule_id", Number(IntText(e.ruleId))),
     ("event_type", Text(TypeText(e.eventType))), ("level", Text(LevelText(e.level))),
     ("status", Text(StatusText(e.status)))]
  }

  function Subject(e: InternalEvent): Members {
    [("target", Text(e.target)), ("pid", Number(IntText(e.pid))), ("tid", Number(IntText(e.tid)))]
  }

  function Measured(e: InternalEvent): Members {
    [("value", Number(Fixed3(e.value))), ("warning_threshold", Number(Fixed3(e.warningThreshold))),
     ("critical_threshold", Number(Fixed3(e.criticalThreshold)))]
  }

  function Counted(e: InternalEvent): Members {
    [("window_sec", Number(IntText(e.windowSec))), ("continuous_hit_count", Number(IntText(e.continuousHits))),
     ("first_seen_ms", Number(IntText(e.firstSeenMs))), ("last_seen_ms", Number(IntText(e.lastSeenMs))),
     ("hit_count", Number(IntText(e.hitCount)))]
  }

  /** The part of the evidence array that is written. */
  function Shown(e: InternalEvent): seq<(string, int)> {
    e.evidence[..if e.evidenceCount < |e.evidence| then e.evidenceCount else |e.evidence|]
  }

  function EvidenceEntries(items: seq<(string, int)>): (es: seq<(string, string)>)
    ensures |es| == |items| && forall i :: 0 <= i < |es| ==> es[i] == (items[i].0, Fixed3(items[i].1))
  {
    seq(|items|, i requires 0 <= i < |items| => (items[i].0, Fixed3(items[i].1)))
  }

  function Evidence(e: InternalEvent): Members {
    [("evidence", Table(EvidenceEntries(Shown(e))))]
  }

  function MembersOf(c: DeviceConfig, e: InternalEvent): Members {
    EventId(c, e) + Origin(c) + Clocks(e) + Kind(e) + Subject(e) + Measured(e) + Counted(e) + Evidence(e)
  }

  // ---- Appending ----

  predicate Fits(thousandths: int) {
    |Fixed3(thousandths)| < DOUBLE_BUFFER
  }

  /** No value is too long for the buffer of append_double. */
  predicate AllFit(e: InternalEvent) {
    && Fits(e.value) && Fits(e.warningThreshold) && Fits(e.criticalThreshold)
    && forall i :: 0 <= i < |Shown(e)| ==> Fits(Shown(e)[i].1)
  }

  /** append_integer. */
  method AppendInteger(output: string, n: int) returns (after: string)
    ensures after == output + IntText(n)
  {
    after := output + IntText(n);
  }

  /** append_double. */
  method AppendDouble(output: string, thousandths: int) returns (after: string)
    requires Fits(thousandths)
    ensures after == output + Fixed3(thousandths)
  {
    after := output + Fixed3(thousandths);
  }

  /** An object is open, with these members so far. */
  predicate Open(output: string, ms: Members) {
    ms != [] && output == "{" + MembersText(ms)
  }

  lemma MemberJoins(output: string, name: string, v: Value)
    ensures output + ",\"" + name + "\":" + Written(v) == output + ("," + Member((name, v)))
  {
    var text := Written(v);
    assert Member((name, v)) == "\"" + name + "\":" + text;
    hide *;
    assert output + ",\"" + name + "\":" + text == output + ("," + ("\"" + name + "\":" + text));
  }

  lemma OneMore(output: string, ms: Members, name: string, v: Value)
    requires Open(output, ms)
    ensures Open(output + ",\"" + name + "\":" + Written(v), ms + [(name, v)])
  {
    MembersSnoc(ms, (name, v));
    var m := "," + Member((name, v));
    MemberJoins(output, name, v);
    PlusAssoc("{", MembersText(ms), m);
    hide *;
  }

  method AppendText(output: string, name: string, value: string, ghost ms: Members) returns (after: string)
    requires Open(output, ms)
    ensures Open(after, ms + [(name, Text(value))])
  {
    OneMore(output, ms, name, Text(value));
    assert Written(Text(value)) == Quoted(value);
    hide *;
    after := AppendJsonString(output + ",\"" + name + "\":", value);
  }

  method AppendInt(output: string, name: string, n: int, ghost ms: Members) returns (after: string)
    requires Open(output, ms)
    ensures Open(after, ms + [(name, Number(IntText(n)))])
  {
    OneMore(output, ms, name, Number(IntText(n)));
    assert Written(Number(IntText(n))) == IntText(n);
    hide *;
    after := AppendInteger(output + ",\"" + name + "\":", n);
  }

  method AppendFixed(output: string, name: string, thousandths: int, ghost ms: Members) returns (after: string)
    requires Open(output, ms) && Fits(thousandths)
    ensures Open(after, ms + [(name, Number(Fixed3(thousandths)))])
  {
    OneMore(output, ms, name, Number(Fixed3(thousandths)));
    assert Written(Number(Fixed3(thousandths))) == Fixed3(thousandths);
    hide *;
    after := AppendDouble(output + ",\"" + name + "\":", thousandths);
  }

  method StartLine(c: DeviceConfig, e: InternalEvent) returns (output: string)
    ensures Open(output, EventId(c, e))
  {
    StartText(c, e);
    hide *;
    output := "{\"event_id\":" + "\"";
    output := AppendEscaped(output, c.deviceId);
    output := output + "-";
    output := AppendInteger(output, e.sequence);
    output := output + "\"";
  }

  lemma StartText(c: DeviceConfig, e: InternalEvent)
    ensures Open("{\"event_id\":" + "\"" + Escape(c.deviceId) + "-" + IntText(e.sequence) + "\"", EventId(c, e))
  {
    StartMember(c.deviceId + "-" + IntText(e.sequence));
    var number := "-" + IntText(e.sequence);
    IntTextIsNumber(e.sequence);
    NumbersEscapeToThemselves(number);
    EscapeAppend(c.deviceId, number);
    var start, escaped := "{\"event_id\":" + "\"", Escape(c.deviceId);
    PlusAssoc(c.deviceId, "-", IntText(e.sequence));
    StartShape(escaped + number);
    PlusAssoc(start + escaped, "-", IntText(e.sequence));
    PlusAssoc(start, escaped, number);
    hide Escape, IntText, MembersText, Decimal;
  }

  lemma StartMember(id: string)
    ensures MembersText([("event_id", Text(id))]) == "\"" + "event_id" + "\":" + ("\"" + Escape(id) + "\"")
  {
  }

  lemma StartShape(x: string)
    ensures "{\"event_id\":" + "\"" + x + "\"" == "{" + ("\"" + "event_id" + "\":" + ("\"" + x + "\""))
  {
  }

  lemma {:induction false} NumbersEscapeToThemselves(t: string)
    requires forall i :: 0 <= i < |t| ==> NumberChar(t[i])
    ensures Escape(t) == t
  {
    if t != "" {
      NumbersEscapeToThemselves(t[1..]);
      assert [t[0]] + t[1..] == t;
    }
  }

  method AppendOrigin(output: string, c: DeviceConfig, ghost ms: Members) returns (after: string)
    requires Open(output, ms)
    ensures Open(after, ms + Origin(c))
  {
    hide Open;
    after := AppendText(output, "device_id", c.deviceId, ms);
    ghost var all := ms + [("device_id", Text(c.deviceId))];
    after := AppendText(after, "platform", c.platform, all);
    all := all + [("platform", Text(c.platform))];
    after := AppendText(after, "software_version", c.softwareVersion, all);
    all := all + [("software_version", Text(c.softwareVersion))];
    after := AppendText(after, "config_version", c.configVersion, all);
    all := all + [("config_version", Text(c.configVersion))];
    assert all == ms + Origin(c);
  }

  method AppendClocks(output: string, e: InternalEvent, ghost ms: Members) returns (after: string)
    requires Open(output, ms)
    ensures Open(after, ms + Clocks(e))
  {
    hide Open;
    after := AppendInt(output, "timestamp_ms", e.realtimeMs, ms);
    ghost var all := ms + [("timestamp_ms", Number(IntText(e.realtimeMs)))];
    after := AppendInt(after, "monotonic_ms", e.monotonicMs, all);
    all := all + [("monotonic_ms", Number(IntText(e.monotonicMs)))];
    after := AppendInt(after, "boottime_ms", e.boottimeMs, all);
    all := all + [("boottime_ms", Number(IntText(e.boottimeMs)))];
    assert all == ms + Clocks(e);
  }

  method AppendKind(output: string, e: InternalEvent, ghost ms: Members) returns (after: string)
    requires Open(output, ms)
    ensures Open(after, ms + Kind(e))
  {
    hide Open;
    after := AppendText(output, "module", "linux_stability_monitor", ms);
    ghost var all := ms + [("module", Text("linux_stability_monitor"))];
    after := AppendInt(after, "rule_id", e.ruleId, all);
    all := all + [("rule_id", Number(IntText(e.ruleId)))];
    after := AppendText(after, "event_type", TypeText(e.eventType), all);
    all := all + [("event_type", Text(TypeText(e.eventType)))];
    after := AppendText(after, "level", LevelText(e.level), all);
    all := all + [("level", Text(LevelText(e.level)))];
    after := AppendText(after, "status", StatusText(e.status), all);
    all := all + [("status", Text(StatusText(e.status)))];
    assert all == ms + Kind(e);
  }

  method AppendSubject(output: string, e: InternalEvent, ghost ms: Members) returns (after: string)
    requires Open(output, ms)
    ensures Open(after, ms + Subject(e))
  {
    hide Open;
    after := AppendText(output, "target", e.target, ms);
    ghost var all := ms + [("target", Text(e.target))];
    after := AppendInt(after, "pid", e.pid, all);
    all := all + [("pid", Number(IntText(e.pid)))];
    after := AppendInt(after, "tid", e.tid, all);
    all := all + [("tid", Number(IntText(e.tid)))];
    assert all == ms + Subject(e);
  }

  method AppendMeasured(output: string, e: InternalEvent, ghost ms: Members) returns (after: string)
    requires Open(output, ms) && AllFit(e)
    ensures Open(after, ms + Measured(e))
  {
    hide Open, Fits;
    after := AppendFixed(output, "value", e.value, ms);
    ghost var all := ms + [("value", Number(Fixed3(e.value)))];
    after := AppendFixed(after, "warning_threshold", e.warningThreshold, all);
    all := all + [("warning_threshold", Number(Fixed3(e.warningThreshold)))];
    after := AppendFixed(after, "critical_threshold", e.criticalThreshold, all);
    all := all + [("critical_threshold", Number(Fixed3(e.criticalThreshold)))];
    assert all == ms + Measured(e);
  }

  method AppendCounted(output: string, e: InternalEvent, ghost ms: Members) returns (after: string)
    requires Open(output, ms)
    ensures Open(after, ms + Counted(e))
  {
    hide Open;
    after := AppendInt(output, "window_sec", e.windowSec, ms);
    ghost var all := ms + [("window_sec", Number(IntText(e.windowSec)))];
    after := AppendInt(after, "continuous_hit_count", e.continuousHits, all);
    all := all + [("continuous_hit_count", Number(IntText(e.continuousHits)))];
    after := AppendInt(after, "first_seen_ms", e.firstSeenMs, all);
    all := all + [("first_seen_ms", Number(IntText(e.firstSeenMs)))];
    after := AppendInt(after, "last_seen_ms", e.lastSeenMs, all);
    all := all + [("last_seen_ms", Number(IntText(e.lastSeenMs)))];
    after := AppendInt(after, "hit_count", e.hitCount, all);
    all := all + [("hit_count", Number(IntText(e.hitCount)))];
    assert all == ms + Counted(e);
  }

  /** The evidence loop. */
  method AppendEvidence(output: string, e: InternalEvent) returns (after: string)
    requires AllFit(e)
    ensures after == output + Entries(EvidenceEntries(Shown(e)))
  {
    ghost var es := EvidenceEntries(Shown(e));
    after := output;
    var i := 0;
    assert es[..0] == [] && Entries([]) == "" && output + "" == output;
    hide Entries, EvidenceEntries, Fixed3, Fits, Entry;
    while i < e.evidenceCount && i < |e.evidence|
      invariant 0 <= i <= |Shown(e)| && after == output + Entries(es[..i])
    {
      assert Shown(e)[i] == e.evidence[i] && Fits(e.evidence[i].1);
      EvidenceStep(output, es, i);
      after := AppendEntry(after, i != 0, e.evidence[i].0, e.evidence[i].1);
      i := i + 1;
    }
    assert es[..i] == es;
  }

  lemma EvidenceStep(output: string, es: seq<(string, string)>, i: nat)
    requires i < |es|
    ensures output + Entries(es[..i + 1]) == output + Entries(es[..i]) + ((if i == 0 then "" else ",") + Entry(es[i]))
  {
    EntryAfter(es[..i], es[i]);
    assert es[..i + 1] == es[..i] + [es[i]];
    PlusAssoc(output, Entries(es[..i]), (if i == 0 then "" else ",") + Entry(es[i]));
    hide *;
  }

  /** The body of the evidence loop. */
  method AppendEntry(output: string, comma: bool, key: string, thousandths: int) returns (after: string)
    requires Fits(thousandths)
    ensures after == output + ((if comma then "," else "") + Entry((key, Fixed3(thousandths))))
  {
    hide Escape, Fixed3;
    after := output;
    if comma { after := after + ","; }
    after := AppendJsonString(after, key);
    after := after + ":";
    after := AppendDouble(after, thousandths);
  }

  lemma EntryAfter(es: seq<(string, string)>, e: (string, string))
    ensures Entries(es + [e]) == Entries(es) + ((if es == [] then "" else ",") + Entry(e))
  {
    if es == [] {
      assert es + [e] == [e];
    } else {
      EntriesSnoc(es, e);
    }
  }

  /** to_json_line. */
  method ToJsonLine(c: DeviceConfig, e: InternalEvent) returns (output: string)
    requires AllFit(e)
    ensures output == Line(MembersOf(c, e))
  {
    hide Open, MembersText, Fits, EvidenceEntries;
    output := StartLine(c, e);
    output := AppendOrigin(output, c, EventId(c, e));
    output := AppendClocks(output, e, EventId(c, e) + Origin(c));
    output := AppendKind(output, e, EventId(c, e) + Origin(c) + Clocks(e));
    output := AppendSubject(output, e, EventId(c, e) + Origin(c) + Clocks(e) + Kind(e));
    output := AppendMeasured(output, e, EventId(c, e) + Origin(c) + Clocks(e) + Kind(e) + Subject(e));
    output := AppendCounted(output, e, EventId(c, e) + Origin(c) + Clocks(e) + Kind(e) + Subject(e) + Measured(e));
    EndOfLine(output, EventId(c, e) + Origin(c) + Clocks(e) + Kind(e) + Subject(e) + Measured(e) + Counted(e), e);
    output := output + ",\"evidence\":{";
    output := AppendEvidence(output, e);
    output := output + "}}\n";
  }

  lemma EndOfLine(output: string, ms: Members, e: InternalEvent)
    requires Open(output, ms)
    ensures output + ",\"evidence\":{" + Entries(EvidenceEntries(Shown(e))) + "}}\n" == Line(ms + Evidence(e))
  {
    var es := Entries(EvidenceEntries(Shown(e)));
    OneMore(output, ms, "evidence", Table(EvidenceEntries(Shown(e))));
    EndShape(output, es);
  }

  lemma EndShape(output: string, es: string)
    ensures output + ",\"evidence\":{" + es + "}}\n" == output + ",\"" + "evidence" + "\":" + ("{" + es + "}") + "}\n"
  {
  }

  // ---- What a reader gets back ----

  ghost predicate CleanConfig(c: DeviceConfig) {
    Clean(c.deviceId) && Clean(c.platform) && Clean(c.softwareVersion) && Clean(c.configVersion)
  }

  /** The strings an event carries hold no control character that is not escaped. */
  ghost predicate CleanEvent(e: InternalEvent) {
    Clean(e.target) && forall i :: 0 <= i < |Shown(e)| ==> Clean(Shown(e)[i].0)
  }

  predicate Wordy(s: string) {
    forall i :: 0 <= i < |s| ==> 'a' <= s[i] <= 'z' || s[i] == '_'
  }

  lemma WordyIsPlain(s: string)
    requires Wordy(s)
    ensures Plain(s) && Clean(s)
  {
  }

  ghost predicate Good(m: (string, Value), clean: bool) {
    Plain(m.0) && WellFormed(m.1) && (clean ==> CleanValue(m.1))
  }

  lemma GoodText(name: string, s: string, clean: bool)
    requires Wordy(name) && (clean ==> Clean(s))
    ensures Good((name, Text(s)), clean)
  {
    WordyIsPlain(name);
  }

  lemma GoodInt(name: string, n: int, clean: bool)
    requires Wordy(name)
    ensures Good((name, Number(IntText(n))), clean)
  {
    WordyIsPlain(name);
    IntTextIsNumber(n);
  }

  lemma GoodFixed(name: string, n: int, clean: bool)
    requires Wordy(name)
    ensures Good((name, Number(Fixed3(n))), clean)
  {
    WordyIsPlain(name);
    Fixed3IsNumber(n);
  }

  ghost predicate AllGood(ms: Members, clean: bool) {
    forall i :: 0 <= i < |ms| ==> Good(ms[i], clean)
  }

  lemma GoodStart(c: DeviceConfig, e: InternalEvent, clean: bool)
    requires clean ==> CleanConfig(c)
    ensures AllGood(EventId(c, e), clean) && AllGood(Origin(c), clean)
  {
    IntTextIsNumber(e.sequence);
    var id := c.deviceId + "-" + IntText(e.sequence);
    assert clean ==> Clean(id);
    hide Good, Clean, IntText;
    GoodText("event_id", id, clean);
    GoodText("device_id", c.deviceId, clean);
    GoodText("platform", c.platform, clean);
    GoodText("software_version", c.softwareVersion, clean);
    GoodText("config_version", c.configVersion, clean);
  }

  lemma GoodClocks(e: InternalEvent, clean: bool)
    ensures AllGood(Clocks(e), clean)
  {
    hide Good, IntText;
    GoodInt("timestamp_ms", e.realtimeMs, clean);
    GoodInt("monotonic_ms", e.monotonicMs, clean);
    GoodInt("boottime_ms", e.boottimeMs, clean);
  }

  predicate OfMonitor(t: EventType) {
    t.QueuePressure? || t.StoragePressure? || t.CollectorFailure? || t.MonitorMemoryPressure?
  }

  predicate Risk(t: EventType) {
    t.SchedDelayRisk? || t.IoDelayRisk? || t.CpuUsageRisk? || t.WhitelistedProcessMemoryRisk?
  }

  lemma MonitorTypeIsClean(t: EventType)
    requires OfMonitor(t)
    ensures Clean(TypeText(t))
  {
  }

  lemma RiskTypeIsClean(t: EventType)
    requires Risk(t)
    ensures Clean(TypeText(t))
  {
    if t.WhitelistedProcessMemoryRisk? {
      ProcessTypeIsClean();
    } else {
      DelayTypeIsClean(t);
    }
    hide TypeText, Clean;
  }

  lemma ProcessTypeIsClean()
    ensures Clean(TypeText(WhitelistedProcessMemoryRisk))
  {
  }

  lemma DelayTypeIsClean(t: EventType)
    requires t.SchedDelayRisk? || t.IoDelayRisk? || t.CpuUsageRisk?
    ensures Clean(TypeText(t))
  {
  }

  lemma OtherTypeIsClean(t: EventType)
    requires !OfMonitor(t) && !Risk(t)
    ensures Clean(TypeText(t))
  {
  }

  lemma TypeIsClean(t: EventType)
    ensures Clean(TypeText(t))
  {
    hide TypeText, Clean;
    if OfMonitor(t) { MonitorTypeIsClean(t); } else if Risk(t) { RiskTypeIsClean(t); } else { OtherTypeIsClean(t); }
  }

  lemma LevelIsClean(level: Level)
    ensures Clean(LevelText(level))
  {
  }

  lemma StatusIsClean(status: Status)
    ensures Clean(StatusText(status))
  {
  }

  lemma ModuleIsClean()
    ensures Clean("linux_stability_monitor")
  {
  }

  lemma GoodKind(e: InternalEvent, clean: bool)
    ensures AllGood(Kind(e), clean)
  {
    TypeIsClean(e.eventType);
    LevelIsClean(e.level);
    StatusIsClean(e.status);
    ModuleIsClean();
    hide Good, Clean, IntText, TypeText, LevelText, StatusText;
    GoodText("module", "linux_stability_monitor", clean);
    GoodInt("rule_id", e.ruleId, clean);
    GoodText("event_type", TypeText(e.eventType), clean);
    GoodText("level", LevelText(e.level), clean);
    GoodText("status", StatusText(e.status), clean);
  }

  lemma GoodSubject(e: InternalEvent, clean: bool)
    requires clean ==> CleanEvent(e)
    ensures AllGood(Subject(e), clean)
  {
    hide Good, Clean, IntText;
    GoodText("target", e.target, clean);
    GoodInt("pid", e.pid, clean);
    GoodInt("tid", e.tid, clean);
  }

  lemma GoodMeasured(e: InternalEvent, clean: bool)
    ensures AllGood(Measured(e), clean)
  {
    hide Good, Fixed3;
    GoodFixed("value", e.value, clean);
    GoodFixed("warning_threshold", e.warningThreshold, clean);
    GoodFixed("critical_threshold", e.criticalThreshold, clean);
  }

  lemma GoodCounted(e: InternalEvent, clean: bool)
    ensures AllGood(Counted(e), clean)
  {
    hide Good, IntText;
    GoodInt("window_sec", e.windowSec, clean);
    GoodInt("continuous_hit_count", e.continuousHits, clean);
    GoodInt("first_seen_ms", e.firstSeenMs, clean);
    GoodInt("last_seen_ms", e.lastSeenMs, clean);
    GoodInt("hit_count", e.hitCount, clean);
  }

  lemma GoodEvidence(e: InternalEvent, clean: bool)
    requires clean ==> CleanEvent(e)
    ensures AllGood(Evidence(e), clean)
  {
    WordyIsPlain("evidence");
    forall i | 0 <= i < |Shown(e)| ensures NumberText(Fixed3(Shown(e)[i].1)) { Fixed3IsNumber(Shown(e)[i].1); }
  }

  lemma GoodAppend(a: Members, b: Members, clean: bool)
    requires AllGood(a, clean) && AllGood(b, clean)
    ensures AllGood(a + b, clean)
  {
  }

  lemma MembersAreGood(c: DeviceConfig, e: InternalEvent, clean: bool)
    requires clean ==> CleanConfig(c) && CleanEvent(e)
    ensures MembersOf(c, e) != [] && AllWellFormed(MembersOf(c, e)) && (clean ==> AllClean(MembersOf(c, e)))
  {
    GoodStart(c, e, clean);
    GoodClocks(e, clean);
    GoodKind(e, clean);
    GoodSubject(e, clean);
    GoodMeasured(e, clean);
    GoodCounted(e, clean);
    GoodEvidence(e, clean);
    assert |EventId(c, e)| == 1;
    hide AllGood, Good, EventId, Origin, Clocks, Kind, Subject, Measured, Counted, Evidence;
    var ms := EventId(c, e) + Origin(c);
    GoodAppend(EventId(c, e), Origin(c), clean);
    GoodAppend(ms, Clocks(e), clean);
    GoodAppend(ms + Clocks(e), Kind(e), clean);
    GoodAppend(ms + Clocks(e) + Kind(e), Subject(e), clean);
    GoodAppend(ms + Clocks(e) + Kind(e) + Subject(e), Measured(e), clean);
    GoodAppend(ms + Clocks(e) + Kind(e) + Subject(e) + Measured(e), Counted(e), clean);
    GoodAppend(ms + Clocks(e) + Kind(e) + Subject(e) + Measured(e) + Counted(e), Evidence(e), clean);
    GoodMeans(MembersOf(c, e), clean);
  }

  lemma GoodMeans(ms: Members, clean: bool)
    requires AllGood(ms, clean)
    ensures AllWellFormed(ms) && (clean ==> AllClean(ms))
  {
    hide Plain, WellFormed, CleanValue;
    assert forall i :: 0 <= i < |ms| ==> Good(ms[i], clean);
  }

  /**
    For every configuration and event the line is one record of the log: one newline, at its end. It is the line that
    ToJsonLine writes when all values fit its buffer.
  */
  lemma EveryLineIsARecord(c: DeviceConfig, e: InternalEvent)
    ensures Framing.IsRecord(Line(MembersOf(c, e)))
  {
    MembersAreGood(c, e, false);
    OneNewline(MembersOf(c, e));
    hide Line;
  }

  function Lines(c: DeviceConfig, events: seq<InternalEvent>): (lines: seq<string>)
    ensures |lines| == |events| && forall i :: 0 <= i < |lines| ==> lines[i] == Line(MembersOf(c, events[i]))
  {
    seq(|events|, i requires 0 <= i < |events| => Line(MembersOf(c, events[i])))
  }

  /** A segment of any events' lines is read back as exactly those lines; they are written if all their values fit. */
  lemma LoggedEventsAreReadBack(c: DeviceConfig, events: seq<InternalEvent>)
    ensures Framing.Parse(Framing.Build(Lines(c, events))) == Lines(c, events)
  {
    forall i | 0 <= i < |events| ensures Framing.IsRecord(Lines(c, events)[i]) { EveryLineIsARecord(c, events[i]); }
    Framing.SegmentRoundTrip(Lines(c, events));
  }

  /** A reader gets every member of a clean event's line back, in order. */
  lemma EventRoundTrip(c: DeviceConfig, e: InternalEvent)
    requires CleanConfig(c) && CleanEvent(e)
    ensures ReadLine(Line(MembersOf(c, e))) == Some(MembersOf(c, e))
  {
    MembersAreGood(c, e, true);
    LineRoundTrip(MembersOf(c, e));
  }
}
