/** The sched_switch program: from runnable starts to waits, and from waits to records, with nothing lost uncounted. */
module SchedDelay {
  import opened Sequences

  datatype Key = Key(pid: nat, tid: nat)

  /** One wait that passed the filters. */
  datatype Wait = Wait(key: Key, ns: nat)

  datatype Aggregate = Aggregate(count: nat, sum: nat, max: nat, lastReportNs: nat)

  datatype Record = Record(key: Key, sum: nat, count: nat, max: nat, avg: nat, aggregated: bool)

  datatype ProgramConfig = ProgramConfig(minWaitNs: nat, windowNs: nat, pidFilter: bool, tidFilter: bool,
                                         lifecycle: bool, aggregate: bool)

  datatype WaitStart = WaitStart(startNs: nat, pid: nat)

  // ---- Accounts, key by key ----

  function WaitedFor(waits: seq<Wait>, k: Key): nat {
    if waits == [] then 0
    else WaitedFor(waits[..|waits| - 1], k) + if waits[|waits| - 1].key == k then waits[|waits| - 1].ns else 0
  }

  function WaitsFor(waits: seq<Wait>, k: Key): nat {
    if waits == [] then 0
    else WaitsFor(waits[..|waits| - 1], k) + if waits[|waits| - 1].key == k then 1 else 0
  }

  function SumFor(records: seq<Record>, k: Key): nat {
    if records == [] then 0
    else SumFor(records[..|records| - 1], k) + if records[|records| - 1].key == k then records[|records| - 1].sum else 0
  }

  function CountFor(records: seq<Record>, k: Key): nat {
    if records == [] then 0
    else CountFor(records[..|records| - 1], k)
         + if records[|records| - 1].key == k then records[|records| - 1].count else 0
  }

  function Residual(aggregates: map<Key, Aggregate>, k: Key): nat {
    if k in aggregates then aggregates[k].sum else 0
  }

  function ResidualCount(aggregates: map<Key, Aggregate>, k: Key): nat {
    if k in aggregates then aggregates[k].count else 0
  }

  /** Every wait of every key is in an emitted record, in its aggregate, or among the lost. */
  ghost predicate Balanced(waits: seq<Wait>, emitted: seq<Record>, aggregates: map<Key, Aggregate>, lost: seq<Record>) {
    forall k: Key ::
      && WaitedFor(waits, k) == SumFor(emitted, k) + Residual(aggregates, k) + SumFor(lost, k)
      && WaitsFor(waits, k) == CountFor(emitted, k) + ResidualCount(aggregates, k) + CountFor(lost, k)
  }

  predicate Sound(a: Aggregate) {
    a.count >= 1 && a.max <= a.sum <= a.count * a.max
  }

  /** avg is the floor of sum / count, and lies below max, which lies below sum. */
  predicate Faithful(r: Record) {
    r.count >= 1 && r.avg == r.sum / r.count && r.avg <= r.max <= r.sum
  }

  // ---- What becomes of a wait ----

  /** The aggregate map, the records submitted, those that found no room, and the two drop counters. */
  datatype Books = Books(aggregates: map<Key, Aggregate>, emitted: seq<Record>, lost: seq<Record>, ringbufDrops: nat,
                         aggregateDrops: nat)

  /** The kernel's answers: whether a start and a first aggregate are stored, and a record gets its room. */
  datatype Answers = Answers(storesStart: bool, storesAggregate: bool, reserves: bool)

  function Single(w: Wait): Record {
    Record(w.key, w.ns, 1, w.ns, w.ns, false)
  }

  function Report(k: Key, a: Aggregate): Record {
    Record(k, a.sum, a.count, a.max, if a.count == 0 then 0 else a.sum / a.count, true)
  }

  function Grown(a: Aggregate, ns: nat): Aggregate {
    a.(count := a.count + 1, sum := a.sum + ns, max := if ns > a.max then ns else a.max)
  }

  function Emitted(b: Books, r: Record, reserved: bool): Books {
    if reserved then b.(emitted := b.emitted + [r])
    else b.(lost := b.lost + [r], ringbufDrops := b.ringbufDrops + 1)
  }

  function Booked(b: Books, active: Option<ProgramConfig>, w: Wait, nowNs: nat, answers: Answers, capacity: nat)
    : Books
  {
    if active.None? || !active.value.aggregate then Emitted(b, Single(w), answers.reserves)
    else if w.key !in b.aggregates then
      if answers.storesAggregate && |b.aggregates| < capacity
      then b.(aggregates := b.aggregates[w.key := Aggregate(1, w.ns, w.ns, nowNs)])
      else b.(lost := b.lost + [Single(w)], aggregateDrops := b.aggregateDrops + 1)
    else
      var a := Grown(b.aggregates[w.key], w.ns);
      if nowNs < a.lastReportNs + active.value.windowNs then b.(aggregates := b.aggregates[w.key := a])
      else
        var out := Emitted(b, Report(w.key, a), answers.reserves);
        out.(aggregates := out.aggregates - {w.key})
  }

  /** The books, with the waits that were booked and the waits that a filter refused. */
  datatype Tally = Tally(books: Books, waits: seq<Wait>, staleHits: nat)

  /** The filters: whether the wait is measured, and whether it counts as a stale hit. */
  function Verdict(active: Option<ProgramConfig>, pids: set<nat>, tids: set<nat>, k: Key, ns: nat): (bool, bool) {
    if active.None? then (true, false)
    else
      var c := active.value;
      if c.minWaitNs > 0 && ns < c.minWaitNs then (false, false)
      else if c.pidFilter && k.pid !in pids then (false, true)
      else if c.tidFilter && k.tid !in tids then (false, true)
      else (true, false)
  }

  function Measured(t: Tally, active: Option<ProgramConfig>, verdict: (bool, bool), w: Wait, nowNs: nat,
                    answers: Answers, capacity: nat): Tally {
    if verdict.0 then Tally(Booked(t.books, active, w, nowNs, answers, capacity), t.waits + [w], t.staleHits)
    else if verdict.1 then t.(staleHits := t.staleHits + 1)
    else t
  }

  /**
    A wait is measured exactly when it is long enough and its process and thread are on the lists that are in force; one
    that is long enough and is refused by a list is a stale hit.
  */
  lemma VerdictExactly(active: Option<ProgramConfig>, pids: set<nat>, tids: set<nat>, k: Key, ns: nat)
    ensures var verdict := Verdict(active, pids, tids, k, ns);
            && (verdict.0 <==> active.Some? ==>
                  && ns >= active.value.minWaitNs && (active.value.pidFilter ==> k.pid in pids)
                  && (active.value.tidFilter ==> k.tid in tids))
            && (verdict.1 <==> active.Some? && ns >= active.value.minWaitNs && !verdict.0)
  {
  }

  /**
    With aggregation off each wait is a record of its own. With it on a wait opens its key's aggregate, or joins it
    while that is younger than a window, and otherwise takes all of it out in one record.
  */
  lemma BookedExactly(b: Books, active: Option<ProgramConfig>, w: Wait, nowNs: nat, answers: Answers, capacity: nat)
    ensures var out := Booked(b, active, w, nowNs, answers, capacity);
            var k := w.key;
            && (active.None? || !active.value.aggregate ==>
                  && out.aggregates == b.aggregates
                  && out.emitted
                     == b.emitted + (if answers.reserves then [Record(k, w.ns, 1, w.ns, w.ns, false)] else []))
            && (active.Some? && active.value.aggregate && k !in b.aggregates ==>
                  && out.emitted == b.emitted
                  && out.aggregates == (if answers.storesAggregate && |b.aggregates| < capacity
                                        then b.aggregates[k := Aggregate(1, w.ns, w.ns, nowNs)] else b.aggregates))
            && (active.Some? && active.value.aggregate && k in b.aggregates ==>
                  var a := b.aggregates[k];
                  var max := if w.ns > a.max then w.ns else a.max;
                  if nowNs - a.lastReportNs < active.value.windowNs then
                    && out.emitted == b.emitted
                    && out.aggregates == b.aggregates[k := Aggregate(a.count + 1, a.sum + w.ns, max, a.lastReportNs)]
                  else
                    && out.aggregates == b.aggregates - {k}
                    && out.emitted == b.emitted + if answers.reserves
                                                  then [Record(k, a.sum + w.ns, a.count + 1, max,
                                                               (a.sum + w.ns) / (a.count + 1), true)] else [])
  {
  }

  /** The aggregates never outgrow their map. */
  lemma BookedFits(b: Books, active: Option<ProgramConfig>, w: Wait, nowNs: nat, answers: Answers, capacity: nat)
    requires Fits(b.aggregates, capacity)
    ensures Fits(Booked(b, active, w, nowNs, answers, capacity).aggregates, capacity)
  {
    if w.key in b.aggregates {
      SameSize(b.aggregates, w.key, Grown(b.aggregates[w.key], w.ns));
      Smaller(b.aggregates, w.key);
    } else {
      OneLarger(b.aggregates, w.key, Aggregate(1, w.ns, w.ns, nowNs));
    }
  }

  predicate Fits<K, V>(m: map<K, V>, capacity: nat) {
    |m| <= capacity
  }

  lemma FitsLess<K, V>(m: map<K, V>, k: K, capacity: nat)
    requires Fits(m, capacity)
    ensures Fits(m - {k}, capacity)
  {
    Smaller(m, k);
  }

  lemma SameSize<K, V>(m: map<K, V>, k: K, v: V)
    requires k in m
    ensures |m[k := v]| == |m|
  {
    assert m[k := v].Keys == m.Keys;
  }

  lemma OneLarger<K, V>(m: map<K, V>, k: K, v: V)
    requires k !in m
    ensures |m[k := v]| == |m| + 1
  {
    assert m[k := v].Keys == m.Keys + {k};
  }

  lemma Smaller<K, V>(m: map<K, V>, k: K)
    ensures |m - {k}| <= |m|
  {
    assert (m - {k}).Keys == m.Keys - {k};
  }

  /** Every wait is accounted for key by key, every record is faithful, and every lost one was counted. */
  ghost predicate Audited(b: Books, waits: seq<Wait>) {
    && Balanced(waits, b.emitted, b.aggregates, b.lost)
    && (forall k :: k in b.aggregates ==> Sound(b.aggregates[k]))
    && (forall i :: 0 <= i < |b.emitted| ==> Faithful(b.emitted[i]))
    && |b.lost| == b.ringbufDrops + b.aggregateDrops
  }

  lemma FloorBelow(sum: nat, count: nat, max: nat)
    requires count >= 1 && sum <= count * max
    ensures sum / count <= max
  {
    var q := sum / count;
    assert count * q <= sum;
    Cancel(count, q, max);
  }

  lemma Cancel(count: nat, q: int, max: nat)
    requires count >= 1 && count * q <= count * max
    ensures q <= max
  {
    assert count * (q - max) <= 0;
  }

  lemma GrownSound(a: Aggregate, ns: nat)
    requires Sound(a)
    ensures Sound(Grown(a, ns))
  {
    var m := if ns > a.max then ns else a.max;
    assert a.count * a.max <= a.count * m;
    assert (a.count + 1) * m == a.count * m + m;
  }

  lemma ReportFaithful(k: Key, a: Aggregate)
    requires Sound(a)
    ensures Faithful(Report(k, a))
  {
    FloorBelow(a.sum, a.count, a.max);
  }

  lemma RecordsSnoc(records: seq<Record>, r: Record, k: Key)
    ensures SumFor(records + [r], k) == SumFor(records, k) + if r.key == k then r.sum else 0
    ensures CountFor(records + [r], k) == CountFor(records, k) + if r.key == k then r.count else 0
  {
    assert (records + [r])[..|records|] == records;
  }

  lemma WaitsSnoc(waits: seq<Wait>, w: Wait, k: Key)
    ensures WaitedFor(waits + [w], k) == WaitedFor(waits, k) + if w.key == k then w.ns else 0
    ensures WaitsFor(waits + [w], k) == WaitsFor(waits, k) + if w.key == k then 1 else 0
  {
    assert (waits + [w])[..|waits|] == waits;
  }

  /** A record that carries the whole aggregate of its key, or a wait of its own, out of the books or among the lost. */
  lemma BalancedMoving(waits: seq<Wait>, b: Books, more: seq<Wait>, aggregates: map<Key, Aggregate>, r: Record,
                       kept: bool)
    requires Balanced(waits, b.emitted, b.aggregates, b.lost)
    requires forall k: Key ::
               && WaitedFor(more, k) == WaitedFor(waits, k) + Residual(aggregates, k) - Residual(b.aggregates, k)
                                        + (if r.key == k then r.sum else 0)
               && WaitsFor(more, k) == WaitsFor(waits, k) + ResidualCount(aggregates, k)
                                       - ResidualCount(b.aggregates, k) + (if r.key == k then r.count else 0)
    ensures kept ==> Balanced(more, b.emitted + [r], aggregates, b.lost)
    ensures !kept ==> Balanced(more, b.emitted, aggregates, b.lost + [r])
  {
    hide SumFor, CountFor, WaitedFor, WaitsFor, Residual, ResidualCount;
    forall k: Key
      ensures SumFor(b.emitted + [r], k) == SumFor(b.emitted, k) + (if r.key == k then r.sum else 0)
              && CountFor(b.emitted + [r], k) == CountFor(b.emitted, k) + (if r.key == k then r.count else 0)
              && SumFor(b.lost + [r], k) == SumFor(b.lost, k) + (if r.key == k then r.sum else 0)
              && CountFor(b.lost + [r], k) == CountFor(b.lost, k) + (if r.key == k then r.count else 0)
    {
      RecordsSnoc(b.emitted, r, k);
      RecordsSnoc(b.lost, r, k);
    }
  }

  /** A wait by itself, as a record of its own. */
  lemma SingleAudited(b: Books, waits: seq<Wait>, w: Wait)
    requires Audited(b, waits)
    ensures Audited(Emitted(b, Single(w), true), waits + [w]) && Audited(Emitted(b, Single(w), false), waits + [w])
    ensures Audited(b.(lost := b.lost + [Single(w)], aggregateDrops := b.aggregateDrops + 1), waits + [w])
  {
    forall k: Key
      ensures WaitedFor(waits + [w], k) == WaitedFor(waits, k) + (if w.key == k then w.ns else 0)
              && WaitsFor(waits + [w], k) == WaitsFor(waits, k) + (if w.key == k then 1 else 0)
    {
      WaitsSnoc(waits, w, k);
    }
    BalancedMoving(waits, b, waits + [w], b.aggregates, Single(w), true);
    BalancedMoving(waits, b, waits + [w], b.aggregates, Single(w), false);
    assert Faithful(Single(w));
    hide Balanced, Sound, Faithful;
  }

  /** A wait joins the aggregate of its key. */
  lemma JoinedAudited(b: Books, waits: seq<Wait>, w: Wait, a: Aggregate)
    requires Audited(b, waits) && Sound(a)
    requires a.sum == Residual(b.aggregates, w.key) + w.ns && a.count == ResidualCount(b.aggregates, w.key) + 1
    ensures Audited(b.(aggregates := b.aggregates[w.key := a]), waits + [w])
  {
    var after := b.aggregates[w.key := a];
    hide SumFor, CountFor, WaitedFor, WaitsFor, Sound, Faithful;
    forall k: Key
      ensures && WaitedFor(waits + [w], k) == SumFor(b.emitted, k) + Residual(after, k) + SumFor(b.lost, k)
              && WaitsFor(waits + [w], k) == CountFor(b.emitted, k) + ResidualCount(after, k) + CountFor(b.lost, k)
    {
      WaitsSnoc(waits, w, k);
    }
  }

  /** An aggregate goes out as one record and is cleared, whether or not the record found room. */
  lemma ReportedAudited(b: Books, waits: seq<Wait>, k: Key, reserved: bool)
    requires Audited(b, waits) && k in b.aggregates
    ensures var out := Emitted(b, Report(k, b.aggregates[k]), reserved);
            Audited(out.(aggregates := out.aggregates - {k}), waits)
  {
    var r, rest := Report(k, b.aggregates[k]), b.aggregates - {k};
    ReportFaithful(k, b.aggregates[k]);
    BalancedMoving(waits, b, waits, rest, r, reserved);
    hide Balanced, Sound, Faithful;
  }

  lemma BookedAudited(b: Books, active: Option<ProgramConfig>, w: Wait, nowNs: nat, answers: Answers, capacity: nat,
                      waits: seq<Wait>)
    requires Audited(b, waits)
    ensures Audited(Booked(b, active, w, nowNs, answers, capacity), waits + [w])
  {
    SingleAudited(b, waits, w);
    if w.key in b.aggregates {
      var a := Grown(b.aggregates[w.key], w.ns);
      GrownSound(b.aggregates[w.key], w.ns);
      JoinedAudited(b, waits, w, a);
      var joined := b.(aggregates := b.aggregates[w.key := a]);
      ReportedAudited(joined, waits + [w], w.key, answers.reserves);
      assert joined.aggregates - {w.key} == b.aggregates - {w.key};
    } else {
      JoinedAudited(b, waits, w, Aggregate(1, w.ns, w.ns, nowNs));
    }
    hide Audited;
  }

  // ---- Runnable starts ----

  /** When a thread became runnable, and which thread; the index of a start is its name. */
  datatype Start = Start(tid: nat, ns: nat)

  /** Each entry stands for one recorded start, that has not been used up. */
  ghost predicate Pending(since: map<nat, WaitStart>, ids: map<nat, nat>, starts: seq<Start>, used: seq<nat>) {
    && ids.Keys == since.Keys
    && (forall t :: t in ids ==> ids[t] < |starts| && starts[ids[t]] == Start(t, since[t].startNs) && ids[t] !in used)
    && (forall i :: 0 <= i < |used| ==> used[i] < |starts|)
    && forall i, j :: 0 <= i < j < |used| ==> used[i] != used[j]
  }

  /** A runnable start is stored, replacing an older one of the thread, if the map takes it. */
  function Started(since: map<nat, WaitStart>, stores: bool, tid: nat, w: WaitStart, capacity: nat)
    : map<nat, WaitStart>
  {
    if stores && IsRoom(since, tid, capacity) then since[tid := w] else since
  }

  predicate IsRoom(since: map<nat, WaitStart>, tid: nat, capacity: nat) {
    tid in since || |since| < capacity
  }

  /** A start is stored exactly when the kernel takes it and its thread has an entry or the map has room for one. */
  lemma StartedExactly(since: map<nat, WaitStart>, stores: bool, tid: nat, w: WaitStart, capacity: nat)
    requires Fits(since, capacity)
    ensures var after := Started(since, stores, tid, w, capacity);
            && Fits(after, capacity)
            && after == (if stores && (tid in since || |since| < capacity) then since[tid := w] else since)
            && (stores && tid !in after ==> |since| == capacity)
  {
    if tid in since { SameSize(since, tid, w); } else { OneLarger(since, tid, w); }
  }

  lemma PendingStart(since: map<nat, WaitStart>, ids: map<nat, nat>, starts: seq<Start>, used: seq<nat>,
                     tid: nat, w: WaitStart)
    requires Pending(since, ids, starts, used)
    ensures Pending(since[tid := w], ids[tid := |starts|], starts + [Start(tid, w.startNs)], used)
  {
  }

  lemma PendingUse(since: map<nat, WaitStart>, ids: map<nat, nat>, starts: seq<Start>, used: seq<nat>, tid: nat)
    requires Pending(since, ids, starts, used) && tid in since
    ensures Pending(since - {tid}, ids - {tid}, starts, used + [ids[tid]])
  {
    forall t | t in ids - {tid} ensures ids[t] !in used + [ids[tid]] {
      assert starts[ids[t]].tid == t && starts[ids[tid]].tid == tid;
    }
  }

  lemma PendingForget(since: map<nat, WaitStart>, ids: map<nat, nat>, starts: seq<Start>, used: seq<nat>, tid: nat)
    requires Pending(since, ids, starts, used)
    ensures Pending(since - {tid}, ids - {tid}, starts, used)
  {
  }

  /** The clock has passed everything that was recorded. */
  predicate Past(since: map<nat, WaitStart>, aggregates: map<Key, Aggregate>, nowNs: nat) {
    (forall t :: t in since ==> since[t].startNs <= nowNs) && Stamped(aggregates, nowNs)
  }

  predicate Stamped(aggregates: map<Key, Aggregate>, nowNs: nat) {
    forall k :: k in aggregates ==> aggregates[k].lastReportNs <= nowNs
  }

  lemma PastStart(since: map<nat, WaitStart>, aggregates: map<Key, Aggregate>, nowNs: nat, tid: nat, w: WaitStart)
    requires Past(since, aggregates, nowNs) && w.startNs <= nowNs
    ensures Past(since[tid := w], aggregates, nowNs)
  {
  }

  /** No aggregate is stamped later than now. */
  lemma BookedStamped(b: Books, active: Option<ProgramConfig>, w: Wait, nowNs: nat, answers: Answers, capacity: nat)
    requires Stamped(b.aggregates, nowNs)
    ensures Stamped(Booked(b, active, w, nowNs, answers, capacity).aggregates, nowNs)
  {
  }

  lemma NothingPending(since: map<nat, WaitStart>, aggregates: map<Key, Aggregate>, ids: map<nat, nat>,
                       starts: seq<Start>, used: seq<nat>)
    requires since == map[] && aggregates == map[] && ids == map[] && starts == [] && used == []
    ensures Pending(since, ids, starts, used) && Past(since, aggregates, 0)
  {
  }

  lemma NothingBooked(b: Books, waits: seq<Wait>)
    requires |b.emitted| == |b.lost| == |waits| == 0 && forall k :: k !in b.aggregates
    requires b.ringbufDrops == b.aggregateDrops == 0
    ensures Audited(b, waits)
  {
    forall k: Key
      ensures WaitedFor(waits, k) == 0 && WaitsFor(waits, k) == 0 && SumFor(b.emitted, k) == 0 && SumFor(b.lost, k) == 0
              && CountFor(b.emitted, k) == 0 && CountFor(b.lost, k) == 0
    {
    }
    hide SumFor, CountFor, WaitedFor, WaitsFor;
  }

  class SchedDelayProgram {
    const startCapacity: nat
    const aggregateCapacity: nat
    var runnableSince: map<nat, WaitStart>
    var aggregates: map<Key, Aggregate>
    var pidAllowlist: set<nat>
    var tidAllowlist: set<nat>
    var ringbufDrops: nat
    var aggregateDrops: nat
    var staleHits: nat
    var execSeen: nat
    var exitCleaned: nat

    /** The waits that passed the filters, the records submitted, and those that found no room. */
    ghost var waits: seq<Wait>
    ghost var emitted: seq<Record>
    ghost var lost: seq<Record>
    ghost var starts: seq<Start>
    ghost var ids: map<nat, nat>
    ghost var used: seq<nat>

    ghost function BooksNow(): Books
      reads this`aggregates, this`emitted, this`lost, this`ringbufDrops, this`aggregateDrops
    {
      Books(aggregates, emitted, lost, ringbufDrops, aggregateDrops)
    }

    ghost function TallyNow(): Tally
      reads this`aggregates, this`emitted, this`lost, this`ringbufDrops, this`aggregateDrops, this`waits, this`staleHits
    {
      Tally(BooksNow(), waits, staleHits)
    }

    /** What the wait of a thread that is switched in does, if one had been started. */
    ghost function Ended(t: Tally, active: Option<ProgramConfig>, since: map<nat, WaitStart>, tid: nat, nowNs: nat,
                         answers: Answers): Tally
      reads this`pidAllowlist, this`tidAllowlist
    {
      if tid !in since || nowNs < since[tid].startNs then t
      else
        var w := Wait(Key(since[tid].pid, tid), nowNs - since[tid].startNs);
        var verdict := Verdict(active, pidAllowlist, tidAllowlist, w.key, w.ns);
        Measured(t, active, verdict, w, nowNs, answers, aggregateCapacity)
    }

    ghost predicate Valid(nowNs: nat)
      reads this
    {
      && Audited(BooksNow(), waits) && Pending(runnableSince, ids, starts, used)
      && Past(runnableSince, aggregates, nowNs) && |waits| + staleHits <= |used|
    }

    constructor (startCapacity: nat, aggregateCapacity: nat)
      ensures Valid(0) && this.startCapacity == startCapacity && this.aggregateCapacity == aggregateCapacity
      ensures waits == [] && starts == [] && used == [] && emitted == [] && lost == [] && aggregates == map[]
      ensures runnableSince == map[] && ringbufDrops == aggregateDrops == staleHits == 0
    {
      ghost var books: Books, none: seq<Wait> := Books(map[], [], [], 0, 0), [];
      NothingBooked(books, none);
      this.startCapacity, this.aggregateCapacity := startCapacity, aggregateCapacity;
      runnableSince, aggregates, pidAllowlist, tidAllowlist := map[], map[], {}, {};
      ringbufDrops, aggregateDrops, staleHits, execSeen, exitCleaned := 0, 0, 0, 0, 0;
      waits, emitted, lost, starts, ids, used := [], [], [], [], map[], [];
      new;
      hide Audited, Pending, Past, WaitedFor, WaitsFor, SumFor, CountFor, Residual, ResidualCount;
      NothingPending(runnableSince, aggregates, ids, starts, used);
    }

    /** emit_event: the record is submitted, or the drop is counted. */
    method EmitEvent(r: Record, reserved: bool) returns (ok: bool)
      modifies this`emitted, this`lost, this`ringbufDrops
      ensures ok == reserved && BooksNow() == Emitted(old(BooksNow()), r, reserved)
    {
      if !reserved {
        ringbufDrops, lost := ringbufDrops + 1, lost + [r];
        return false;
      }
      emitted := emitted + [r];
      return true;
    }

    /** aggregate_or_emit. */
    method AggregateOrEmit(active: Option<ProgramConfig>, w: Wait, nowNs: nat, answers: Answers)
      modifies this`aggregates, this`aggregateDrops, this`lost, this`emitted, this`ringbufDrops
      ensures BooksNow() == Booked(old(BooksNow()), active, w, nowNs, answers, aggregateCapacity)
    {
      if active.None? || !active.value.aggregate {
        var ok := EmitEvent(Record(w.key, w.ns, 1, w.ns, w.ns, false), answers.reserves);
        return;
      }
      if w.key !in aggregates {
        if answers.storesAggregate && |aggregates| < aggregateCapacity {
          aggregates := aggregates[w.key := Aggregate(1, w.ns, w.ns, nowNs)];
        } else {
          aggregateDrops, lost := aggregateDrops + 1, lost + [Single(w)];
        }
        return;
      }
      var existing := aggregates[w.key];
      existing := existing.(count := existing.count + 1);
      existing := existing.(sum := existing.sum + w.ns);
      if w.ns > existing.max { existing := existing.(max := w.ns); }
      if nowNs < existing.lastReportNs + active.value.windowNs {
        aggregates := aggregates[w.key := existing];
        return;
      }
      var average := if existing.count == 0 then 0 else existing.sum / existing.count;
      var ok := EmitEvent(Record(w.key, existing.sum, existing.count, existing.max, average, true), answers.reserves);
      aggregates := aggregates - {w.key};
    }

    /** The first part of on_sched_switch: a thread that is switched out while still runnable starts to wait. */
    method RecordStart(stillRunnable: bool, tid: nat, pid: nat, nowNs: nat, stores: bool)
      requires Valid(nowNs)
      modifies this`runnableSince, this`starts, this`ids
      ensures Valid(nowNs)
      ensures starts == old(starts) + if stillRunnable && stores && IsRoom(old(runnableSince), tid, startCapacity)
                                      then [Start(tid, nowNs)] else []
      ensures runnableSince
           == Started(old(runnableSince), stillRunnable && stores, tid, WaitStart(nowNs, pid), startCapacity)
    {
      if stillRunnable && stores && (tid in runnableSince || |runnableSince| < startCapacity) {
        assert IsRoom(runnableSince, tid, startCapacity);
        var start := WaitStart(nowNs, pid);
        PendingStart(runnableSince, ids, starts, used, tid, start);
        PastStart(runnableSince, aggregates, nowNs, tid, start);
        hide Pending, Audited, Past;
        runnableSince := runnableSince[tid := start];
        ids := ids[tid := |starts|];
        starts := starts + [Start(tid, nowNs)];
      }
    }

    /** The filters of on_sched_switch, in their order. */
    method Filter(active: Option<ProgramConfig>, k: Key, ns: nat) returns (measured: bool, stale: bool)
      ensures (measured, stale) == Verdict(active, pidAllowlist, tidAllowlist, k, ns) && !(measured && stale)
    {
      if active.Some? && active.value.minWaitNs > 0 && ns < active.value.minWaitNs { return false, false; }
      if active.Some? && active.value.pidFilter && k.pid !in pidAllowlist { return false, true; }
      if active.Some? && active.value.tidFilter && k.tid !in tidAllowlist { return false, true; }
      return true, false;
    }

    /** What becomes of a wait that has ended. */
    method Measure(active: Option<ProgramConfig>, k: Key, ns: nat, nowNs: nat, answers: Answers)
      requires Audited(BooksNow(), waits) && Stamped(aggregates, nowNs)
      modifies this`staleHits, this`aggregates, this`aggregateDrops, this`lost, this`waits, this`emitted,
               this`ringbufDrops
      ensures Audited(BooksNow(), waits) && Stamped(aggregates, nowNs)
      ensures var verdict := Verdict(active, pidAllowlist, tidAllowlist, k, ns);
              TallyNow() == Measured(old(TallyNow()), active, verdict, Wait(k, ns), nowNs, answers, aggregateCapacity)
      ensures |waits| + staleHits <= |old(waits)| + old(staleHits) + 1
    {
      BookedAudited(BooksNow(), active, Wait(k, ns), nowNs, answers, aggregateCapacity, waits);
      BookedStamped(BooksNow(), active, Wait(k, ns), nowNs, answers, aggregateCapacity);
      hide Audited, Verdict, Booked, Stamped;
      var measured, stale := Filter(active, k, ns);
      if stale { staleHits := staleHits + 1; }
      if measured {
        AggregateOrEmit(active, Wait(k, ns), nowNs, answers);
        waits := waits + [Wait(k, ns)];
      }
    }

    /**
      The rest of on_sched_switch: the thread that is switched in ends its wait. Its start is used up, whatever the
      filters say, and the wait is measured from exactly that start.
    */
    method EndWait(active: Option<ProgramConfig>, tid: nat, nowNs: nat, answers: Answers)
      requires Valid(nowNs)
      modifies this`runnableSince, this`ids, this`used, this`staleHits, this`aggregates, this`aggregateDrops, this`lost,
               this`waits, this`emitted, this`ringbufDrops
      ensures Valid(nowNs) && runnableSince == old(runnableSince) - {tid}
      ensures TallyNow() == Ended(old(TallyNow()), active, old(runnableSince), tid, nowNs, answers)
      ensures |used| == |old(used)| + if tid in old(runnableSince) then 1 else 0
    {
      if tid !in runnableSince { return; }
      ghost var before, t := runnableSince, TallyNow();
      var since := runnableSince[tid];
      var k, ns := Key(since.pid, tid), nowNs - since.startNs;
      UseUp(tid, nowNs);
      hide Audited, Pending, Verdict, Booked, Measured, Stamped;
      assert TallyNow() == t;
      Measure(active, k, ns, nowNs, answers);
      assert TallyNow() == Ended(t, active, before, tid, nowNs, answers);
    }

    /** The entry is deleted on every path. */
    method UseUp(tid: nat, nowNs: nat)
      requires Valid(nowNs) && tid in runnableSince
      modifies this`runnableSince, this`ids, this`used
      ensures Valid(nowNs) && |waits| + staleHits + 1 <= |used| == |old(used)| + 1
      ensures runnableSince == old(runnableSince) - {tid}
      ensures var i := used[|old(used)|];
              i < |starts| && starts[i] == Start(tid, old(runnableSince)[tid].startNs)
    {
      PendingUse(runnableSince, ids, starts, used, tid);
      hide Audited;
      assert tid in ids;
      hide Pending;
      runnableSince, used := runnableSince - {tid}, used + [ids[tid]];
      ids := ids - {tid};
    }

    /** on_sched_switch. */
    method OnSchedSwitch(active: Option<ProgramConfig>, stillRunnable: bool, prevTid: nat, currentPid: nat,
                         nextTid: nat, ghost lastNs: nat, nowNs: nat, answers: Answers)
      requires Valid(lastNs) && lastNs <= nowNs
      modifies this`runnableSince, this`starts, this`ids, this`used, this`staleHits, this`aggregates,
               this`aggregateDrops, this`lost, this`waits, this`emitted, this`ringbufDrops
      ensures Valid(nowNs)
      ensures starts == old(starts) + if stillRunnable && answers.storesStart
                                         && IsRoom(old(runnableSince), prevTid, startCapacity)
                                      then [Start(prevTid, nowNs)] else []
      ensures var since := Started(old(runnableSince), stillRunnable && answers.storesStart, prevTid,
                                   WaitStart(nowNs, currentPid), startCapacity);
              && runnableSince == since - {nextTid} && |used| == |old(used)| + (if nextTid in since then 1 else 0)
              && TallyNow() == Ended(old(TallyNow()), active, since, nextTid, nowNs, answers)
    {
      assert Valid(nowNs);
      hide Valid, Verdict, Measured, Started, IsRoom;
      RecordStart(stillRunnable, prevTid, currentPid, nowNs, answers.storesStart);
      EndWait(active, nextTid, nowNs, answers);
    }

    /** on_sched_process_exec. */
    method OnExec(active: Option<ProgramConfig>)
      modifies this`execSeen
      ensures execSeen == old(execSeen) + (if active.Some? && active.value.lifecycle then 1 else 0)
    {
      if active.None? || !active.value.lifecycle { return; }
      execSeen := execSeen + 1;
    }

    /** on_sched_process_exit: the thread's start is forgotten, its aggregate is kept. */
    method OnExit(active: Option<ProgramConfig>, pid: nat, tid: nat, ghost nowNs: nat)
      requires Valid(nowNs)
      modifies this`runnableSince, this`ids, this`pidAllowlist, this`tidAllowlist, this`exitCleaned
      ensures Valid(nowNs)
      ensures if active.Some? && active.value.lifecycle
              then && runnableSince == old(runnableSince) - {tid} && pidAllowlist == old(pidAllowlist) - {pid}
                   && tidAllowlist == old(tidAllowlist) - {tid} && exitCleaned == old(exitCleaned) + 1
              else && runnableSince == old(runnableSince) && pidAllowlist == old(pidAllowlist)
                   && tidAllowlist == old(tidAllowlist) && exitCleaned == old(exitCleaned)
    {
      if active.None? || !active.value.lifecycle { return; }
      PendingForget(runnableSince, ids, starts, used, tid);
      hide Audited, Pending;
      tidAllowlist, pidAllowlist := tidAllowlist - {tid}, pidAllowlist - {pid};
      runnableSince, ids := runnableSince - {tid}, ids - {tid};
      exitCleaned := exitCleaned + 1;
    }
  }

  /** What a switch, as OnSchedSwitch states it, does to the two maps leaves them within their capacities. */
  lemma SwitchFits(program: SchedDelayProgram, since: map<nat, WaitStart>, t: Tally, active: Option<ProgramConfig>,
                   stores: bool, prevTid: nat, start: WaitStart, nextTid: nat, nowNs: nat, answers: Answers)
    requires Fits(since, program.startCapacity) && Fits(t.books.aggregates, program.aggregateCapacity)
    ensures var after := Started(since, stores, prevTid, start, program.startCapacity);
            && Fits(after - {nextTid}, program.startCapacity)
            && Fits(program.Ended(t, active, after, nextTid, nowNs, answers).books.aggregates,
                    program.aggregateCapacity)
  {
    var after := Started(since, stores, prevTid, start, program.startCapacity);
    StartedExactly(since, stores, prevTid, start, program.startCapacity);
    FitsLess(after, nextTid, program.startCapacity);
    if nextTid in after && nowNs >= after[nextTid].startNs {
      var w := Wait(Key(after[nextTid].pid, nextTid), nowNs - after[nextTid].startNs);
      BookedFits(t.books, active, w, nowNs, answers, program.aggregateCapacity);
    }
    hide Fits, Started, Booked, Verdict;
  }
}
