/**
  One producer and one consumer on the ring, interleaved at every atomic load, store and slot access.

  head_ has one writer and tail_ has one writer, each published with release and read with acquire, so a state between
  atomic steps is a state of both threads. `accepted`, `popped` and `attempts` record what has happened.
*/
module RingProtocol {
  import opened Events
  import opened SpscRing

  /** Where emplace is; the loads it has made so far are the arguments. */
  datatype Producer =
    | Idle
    | HeadLoaded(item: Event, head: nat)
    | HasRoom(item: Event, head: nat)
    | DepthHead(item: Event, head: nat, depthHead: nat)
    | Admitted(item: Event, head: nat)
    | Written(item: Event, head: nat)
    | Published
    | MarkHead(depthHead: nat)
    | Mark(current: nat)
    | MarkCas(current: nat, observed: nat)

  /** Where pop is. */
  datatype Consumer =
    | Waiting
    | TailLoaded(tail: nat)
    | NonEmpty(tail: nat)
    | Taken(tail: nat, item: Event)

  datatype Drops = Drops(info: nat, warning: nat, critical: nat, reserve: nat, pushFail: nat)

  datatype Ring = Ring(buffer: seq<Event>, head: nat, tail: nat, highWatermark: nat, drops: Drops,
                       producer: Producer, consumer: Consumer,
                       attempts: nat, accepted: seq<Event>, popped: seq<Event>)

  function Length(s: Ring): int {
    |s.accepted| - |s.popped|
  }

  /** record_drop. */
  function RecordDrop(d: Drops, level: Level, byReserve: bool): Drops {
    var counted := d.(pushFail := d.pushFail + 1, reserve := d.reserve + if byReserve then 1 else 0);
    match level
    case Critical => counted.(critical := d.critical + 1)
    case Warning => counted.(warning := d.warning + 1)
    case _ => counted.(info := d.info + 1)
  }

  ghost predicate Init(c: RingConfig, s: Ring) {
    && c.capacity > 0 && |s.buffer| == c.capacity && s.head == 0 && s.tail == 0 && s.highWatermark == 0
    && s.drops == Drops(0, 0, 0, 0, 0) && s.producer == Idle && s.consumer == Waiting
    && s.attempts == 0 && s.accepted == [] && s.popped == []
  }

  /** The indices are within the buffer. */
  ghost predicate WellFormed(c: RingConfig, s: Ring) {
    c.capacity > 0 && |s.buffer| == c.capacity && s.head < c.capacity && s.tail < c.capacity
  }

  /** One atomic step of emplace. */
  ghost predicate ProducerStep(c: RingConfig, s: Ring, t: Ring)
    requires WellFormed(c, s)
  {
    match s.producer
    case Idle =>
      exists item :: t == s.(producer := HeadLoaded(item, s.head), attempts := s.attempts + 1)
    case HeadLoaded(item, head) =>
      if Increment(head, c.capacity) == s.tail
      then t == s.(producer := Idle, drops := RecordDrop(s.drops, item.level, false))
      else t == s.(producer := HasRoom(item, head))
    case HasRoom(item, head) =>
      if ReserveApplies(c, item.level) then t == s.(producer := DepthHead(item, head, s.head))
      else t == s.(producer := Admitted(item, head))
    case DepthHead(item, head, depthHead) =>
      depthHead < c.capacity &&
      if RejectsForReserve(c, item.level, Depth(depthHead, s.tail, c.capacity))
      then t == s.(producer := Idle, drops := RecordDrop(s.drops, item.level, true))
      else t == s.(producer := Admitted(item, head))
    case Admitted(item, head) =>
      head < c.capacity && t == s.(producer := Written(item, head), buffer := s.buffer[head := item])
    case Written(item, head) =>
      t == s.(producer := Published, head := Increment(head, c.capacity), accepted := s.accepted + [item])
    case Published =>
      t == s.(producer := MarkHead(s.head))
    case MarkHead(depthHead) =>
      depthHead < c.capacity && t == s.(producer := Mark(Depth(depthHead, s.tail, c.capacity)))
    case Mark(current) =>
      t == s.(producer := MarkCas(current, s.highWatermark))
    case MarkCas(current, observed) =>
      if current <= observed then t == s.(producer := Idle)
      else
        // compare_exchange_weak: succeeds on a match, or fails and reloads, even spuriously.
        || (observed == s.highWatermark && t == s.(producer := Idle, highWatermark := current))
        || t == s.(producer := MarkCas(current, s.highWatermark))
  }

  /** One atomic step of pop. */
  ghost predicate ConsumerStep(c: RingConfig, s: Ring, t: Ring)
    requires WellFormed(c, s)
  {
    match s.consumer
    case Waiting => t == s.(consumer := TailLoaded(s.tail))
    case TailLoaded(tail) =>
      if tail == s.head then t == s.(consumer := Waiting) else t == s.(consumer := NonEmpty(tail))
    case NonEmpty(tail) =>
      tail < c.capacity && t == s.(consumer := Taken(tail, s.buffer[tail]))
    case Taken(tail, item) =>
      t == s.(consumer := Waiting, tail := Increment(tail, c.capacity), popped := s.popped + [item])
  }

  ghost predicate Next(c: RingConfig, s: Ring, t: Ring) {
    WellFormed(c, s) && (ProducerStep(c, s, t) || ConsumerStep(c, s, t))
  }

  // ---- What every interleaving keeps ----

  /** The queue is what was accepted and not yet popped. */
  ghost predicate Queue(c: RingConfig, s: Ring) {
    && c.capacity > 0 && |s.buffer| == c.capacity
    && s.popped <= s.accepted
    && Shape(s.buffer, s.head, s.tail, s.accepted, |s.popped|)
  }

  /** What the producer's loads still tell it; the consumer can only have made more room since. */
  ghost predicate ProducerKnows(c: RingConfig, s: Ring)
    requires Queue(c, s)
  {
    match s.producer
    case Idle => Length(s) <= s.highWatermark
    case HeadLoaded(_, head) => head == s.head && Length(s) <= s.highWatermark
    case HasRoom(_, head) => head == s.head && Length(s) < c.Usable() && Length(s) <= s.highWatermark
    case DepthHead(item, head, depthHead) =>
      && head == depthHead == s.head && Length(s) < c.Usable() && Length(s) <= s.highWatermark
      && ReserveApplies(c, item.level)
    case Admitted(item, head) =>
      && head == s.head && Length(s) < c.Usable() && Length(s) <= s.highWatermark
      && (ReserveApplies(c, item.level) ==> Length(s) + 1 + Reserve(c) <= c.Usable())
    case Written(item, head) =>
      && head == s.head && Length(s) < c.Usable() && Length(s) <= s.highWatermark
      && (ReserveApplies(c, item.level) ==> Length(s) + 1 + Reserve(c) <= c.Usable())
      && s.buffer[head] == item
    case Published => true
    case MarkHead(depthHead) => depthHead == s.head
    case Mark(current) => Length(s) <= current <= c.Usable()
    case MarkCas(current, observed) => Length(s) <= current <= c.Usable() && observed == s.highWatermark
  }

  ghost predicate ConsumerKnows(c: RingConfig, s: Ring)
    requires Queue(c, s)
  {
    match s.consumer
    case Waiting => true
    case TailLoaded(tail) => tail == s.tail
    case NonEmpty(tail) => tail == s.tail && Length(s) > 0
    case Taken(tail, item) => tail == s.tail && Length(s) > 0 && item == s.accepted[|s.popped|]
  }

  /** Every push is accepted, dropped under its level, or still under way. */
  ghost predicate Accounted(s: Ring) {
    var d := s.drops;
    var underWay := match s.producer case Idle => 0 case Published => 0 case MarkHead(_) => 0 case Mark(_) => 0
                                     case MarkCas(_, _) => 0 case _ => 1;
    && s.attempts == |s.accepted| + d.info + d.warning + d.critical + underWay
    && d.pushFail == d.info + d.warning + d.critical
    && d.reserve <= d.info + d.warning
  }

  /** With both drop flags on, the reserve is never used by anything but Critical items. */
  ghost predicate ReserveKept(c: RingConfig, s: Ring)
    requires Queue(c, s)
  {
    c.dropInfo && c.dropWarning && Reserve(c) > 0 ==>
      NonCritical(s.accepted[|s.popped|..]) + Reserve(c) <= c.Usable()
  }

  ghost predicate Inv(c: RingConfig, s: Ring) {
    && Queue(c, s) && ProducerKnows(c, s) && ConsumerKnows(c, s)
    && s.highWatermark <= c.Usable() && Accounted(s) && ReserveKept(c, s)
  }

  lemma InitInv(c: RingConfig, s: Ring)
    requires Init(c, s)
    ensures Inv(c, s)
  {
  }

  /** The non-critical items of the queue after a push: one more at most, and never more than the queue is long. */
  lemma QueuedAfterPush(accepted: seq<Event>, popped: nat, item: Event)
    requires popped <= |accepted|
    ensures var queued, after := accepted[popped..], (accepted + [item])[popped..];
            && NonCritical(after) == NonCritical(queued) + (if item.level == Critical then 0 else 1)
            && NonCritical(queued) <= |queued| == |accepted| - popped
  {
    assert (accepted + [item])[popped..] == accepted[popped..] + [item];
    NonCriticalSnoc(accepted[popped..], item);
  }

  lemma WriteStepInv(c: RingConfig, s: Ring, t: Ring)
    requires Inv(c, s) && s.producer.Admitted? && ProducerStep(c, s, t)
    ensures Inv(c, t)
  {
    hide NonCritical;
    WriteKeepsShape(s.buffer, s.head, s.tail, s.accepted, |s.popped|, s.producer.item);
    hide Shape;
  }

  lemma PublishStepInv(c: RingConfig, s: Ring, t: Ring)
    requires Inv(c, s) && s.producer.Written? && ProducerStep(c, s, t)
    ensures Inv(c, t)
  {
    hide NonCritical, Shape, Slot, Depth, Increment;
    PublishKeepsShape(s.buffer, s.head, s.tail, s.accepted, |s.popped|, s.producer.item);
    QueuedAfterPush(s.accepted, |s.popped|, s.producer.item);
  }

  lemma PublishKeepsShape(buffer: seq<Event>, head: nat, tail: nat, accepted: seq<Event>, popped: nat, item: Event)
    requires Shape(buffer, head, tail, accepted, popped) && |accepted| - popped < |buffer| - 1 && buffer[head] == item
    ensures Shape(buffer, Increment(head, |buffer|), tail, accepted + [item], popped)
  {
    WriteKeepsShape(buffer, head, tail, accepted, popped, item);
    assert buffer[head := item] == buffer;
  }

  lemma ProducerStepInv(c: RingConfig, s: Ring, t: Ring)
    requires Inv(c, s) && ProducerStep(c, s, t)
    ensures Inv(c, t)
  {
    if s.producer.Admitted? {
      WriteStepInv(c, s, t);
    } else if s.producer.Written? {
      PublishStepInv(c, s, t);
    } else if Admitting(s.producer) {
      AdmissionStepInv(c, s, t);
    } else {
      MarkStepInv(c, s, t);
    }
  }

  predicate Admitting(p: Producer) {
    p.Idle? || p.HeadLoaded? || p.HasRoom? || p.DepthHead?
  }

  lemma AdmissionStepInv(c: RingConfig, s: Ring, t: Ring)
    requires Inv(c, s) && Admitting(s.producer) && ProducerStep(c, s, t)
    ensures Inv(c, t)
  {
    if s.producer.DepthHead? { ReserveStepInv(c, s, t); } else { RoomStepInv(c, s, t); }
  }

  lemma RoomStepInv(c: RingConfig, s: Ring, t: Ring)
    requires Inv(c, s) && (s.producer.Idle? || s.producer.HeadLoaded? || s.producer.HasRoom?) && ProducerStep(c, s, t)
    ensures Inv(c, t)
  {
    FullTest(|s.accepted|, |s.popped|, c.capacity);
    hide Shape, NonCritical, Slot, Depth, Increment, Reserve, ReserveKept;
  }

  lemma ReserveStepInv(c: RingConfig, s: Ring, t: Ring)
    requires Inv(c, s) && s.producer.DepthHead? && ProducerStep(c, s, t)
    ensures Inv(c, t)
  {
    DepthIsLength(|s.accepted|, |s.popped|, c.capacity);
    hide Shape, NonCritical, Slot, Depth, Increment;
  }

  lemma MarkStepInv(c: RingConfig, s: Ring, t: Ring)
    requires Inv(c, s) && (s.producer.Published? || s.producer.MarkHead? || s.producer.Mark? || s.producer.MarkCas?)
    requires ProducerStep(c, s, t)
    ensures Inv(c, t)
  {
    DepthIsLength(|s.accepted|, |s.popped|, c.capacity);
    hide Shape, NonCritical, Slot, Depth, Increment;
  }

  lemma ConsumerStepInv(c: RingConfig, s: Ring, t: Ring)
    requires Inv(c, s) && ConsumerStep(c, s, t)
    ensures Inv(c, t)
  {
    if s.consumer.Taken? { PublishPopInv(c, s, t); } else { LookStepInv(c, s, t); }
  }

  /** Up to the slot access the consumer only looks. */
  lemma LookStepInv(c: RingConfig, s: Ring, t: Ring)
    requires Inv(c, s) && ConsumerStep(c, s, t) && !s.consumer.Taken?
    ensures Inv(c, t)
  {
    EmptyTest(|s.accepted|, |s.popped|, c.capacity);
    if Length(s) > 0 { PopKeepsShape(s.buffer, s.head, s.tail, s.accepted, |s.popped|); }
    hide Shape, NonCritical, Slot, Depth, Increment, Reserve, ReserveApplies;
  }

  lemma PublishPopInv(c: RingConfig, s: Ring, t: Ring)
    requires Inv(c, s) && ConsumerStep(c, s, t) && s.consumer.Taken?
    ensures Inv(c, t)
  {
    PopKeepsShape(s.buffer, s.head, s.tail, s.accepted, |s.popped|);
    hide Shape, NonCritical, Slot, Depth, Increment, Reserve, ReserveApplies;
    assert s.accepted[|s.popped|..][1..] == s.accepted[|s.popped| + 1..];
    NonCriticalTail(s.accepted[|s.popped|..]);
  }

  // ---- Over whole runs ----

  ghost predicate Run(c: RingConfig, run: seq<Ring>) {
    && run != [] && Init(c, run[0])
    && forall k :: 0 <= k < |run| - 1 ==> Next(c, run[k], run[k + 1])
  }

  lemma {:induction false} RunInv(c: RingConfig, run: seq<Ring>, k: nat)
    requires Run(c, run) && k < |run|
    ensures Inv(c, run[k])
  {
    if k == 0 {
      InitInv(c, run[0]);
    } else {
      RunInv(c, run, k - 1);
      assert Next(c, run[k - 1], run[k - 1 + 1]);
      if ProducerStep(c, run[k - 1], run[k]) {
        ProducerStepInv(c, run[k - 1], run[k]);
      } else {
        ConsumerStepInv(c, run[k - 1], run[k]);
      }
    }
  }

  /**
    In every interleaving: what has been popped is a prefix of what has been accepted, the length stays within the
    usable capacity, and the slot the producer is about to write is none the consumer may read.
  */
  lemma RingIsAFifo(c: RingConfig, run: seq<Ring>, k: nat)
    requires Run(c, run) && k < |run|
    ensures var s := run[k];
            && s.popped <= s.accepted && 0 <= Length(s) <= c.Usable()
            && (s.producer.Admitted? ==>
                  forall n :: |s.popped| <= n < |s.accepted| ==> Slot(n, c.capacity) != s.producer.head)
            && (s.producer.Admitted? && (s.consumer.NonEmpty? || s.consumer.Taken?) ==>
                  s.producer.head != s.consumer.tail)
  {
    RunInv(c, run, k);
    var s := run[k];
    if s.producer.Admitted? {
      forall n | |s.popped| <= n < |s.accepted| ensures Slot(n, c.capacity) != s.producer.head {
        SlotsDiffer(n, |s.accepted|, c.capacity);
      }
    }
  }

  /** The producer's depth() never falls short of the length, and an idle producer has recorded every length. */
  lemma ProducerDepthIsConservative(c: RingConfig, run: seq<Ring>, k: nat)
    requires Run(c, run) && k < |run|
    ensures var s := run[k];
            && (s.producer.Mark? ==> Length(s) <= s.producer.current <= c.Usable())
            && (s.producer.Idle? ==> Length(s) <= s.highWatermark <= c.Usable())
            && (s.producer.DepthHead? && s.tail < c.capacity && s.producer.depthHead < c.capacity ==>
                  Depth(s.producer.depthHead, s.tail, c.capacity) == Length(s))
  {
    RunInv(c, run, k);
    DepthIsLength(|run[k].accepted|, |run[k].popped|, c.capacity);
  }

  /**
    With both drop flags on and a reserve of R > 0: at most usable - R queued items are not Critical, and a Critical
    push is refused only while at least R Critical items are queued.
  */
  lemma CriticalReserve(c: RingConfig, run: seq<Ring>, k: nat)
    requires Run(c, run) && k < |run| && c.dropInfo && c.dropWarning && Reserve(c) > 0
    ensures |run[k].popped| <= |run[k].accepted|
    ensures var queued := run[k].accepted[|run[k].popped|..];
            && NonCritical(queued) + Reserve(c) <= c.Usable()
            && (k + 1 < |run| && run[k + 1].drops.critical > run[k].drops.critical ==>
                  |queued| - NonCritical(queued) >= Reserve(c))
  {
    RunInv(c, run, k);
    var s := run[k];
    FullTest(|s.accepted|, |s.popped|, c.capacity);
    if k + 1 < |run| { assert Next(c, s, run[k + 1]); }
  }

  /**
    What an interleaved push decides, by the levels' flags and the depth that the producer reads: a level that need not
    give way is admitted once there is room, and any other exactly when more slots than the reserve are free.
  */
  lemma AdmissionExactly(c: RingConfig, run: seq<Ring>, k: nat)
    requires Run(c, run) && k + 1 < |run| && run[k + 1].producer != run[k].producer
    ensures var s, t := run[k].producer, run[k + 1].producer;
            && (s.HeadLoaded? ==> if Length(run[k]) == c.capacity - 1 then t.Idle? else t.HasRoom?)
            && (s.HasRoom? ==>
                  var givesWay := (s.item.level == Warning && c.dropWarning)
                                  || ((s.item.level == Info || s.item.level == Recovery) && c.dropInfo);
                  if givesWay && c.reserved > 0 then t.DepthHead? else t.Admitted?)
            && (s.DepthHead? ==>
                  && s.depthHead < c.capacity && run[k].tail < c.capacity
                  && var free := c.capacity - 1 - Depth(s.depthHead, run[k].tail, c.capacity);
                  var kept := if c.reserved < c.capacity - 2 then c.reserved else c.capacity - 2;
                  if free > kept then t.Admitted? else t.Idle? && run[k + 1].drops.reserve == run[k].drops.reserve + 1)
  {
    RunInv(c, run, k);
    assert Next(c, run[k], run[k + 1]);
    DepthIsLength(|run[k].accepted|, |run[k].popped|, c.capacity);
    FullTest(|run[k].accepted|, |run[k].popped|, c.capacity);
    hide Run, NonCritical, ReserveKept, Accounted, Shape, Slot, Increment;
  }

  /** A pop that has loaded tail_ finds the queue empty exactly when it is, and takes its oldest item otherwise. */
  lemma PopExactly(c: RingConfig, run: seq<Ring>, k: nat)
    requires Run(c, run) && k + 1 < |run| && run[k + 1].consumer != run[k].consumer
    ensures var s, t := run[k].consumer, run[k + 1].consumer;
            && (s.TailLoaded? ==> if Length(run[k]) == 0 then t.Waiting? else t.NonEmpty?)
            && (s.NonEmpty? ==> && |run[k].popped| < |run[k].accepted| && t.Taken?
                                && t.item == run[k].accepted[|run[k].popped|])
            && (s.Taken? ==> t.Waiting? && run[k + 1].popped == run[k].popped + [s.item])
  {
    RunInv(c, run, k);
    RunInv(c, run, k + 1);
    assert Next(c, run[k], run[k + 1]);
    EmptyTest(|run[k].accepted|, |run[k].popped|, c.capacity);
    hide Run, NonCritical, ReserveKept, Accounted, Shape, Slot, Increment;
  }

  /** A push that is given up is counted once under its level, and under the reserve if that was the reason. */
  lemma DropExactly(c: RingConfig, run: seq<Ring>, k: nat)
    requires Run(c, run) && k + 1 < |run| && run[k + 1].producer.Idle?
    requires run[k].producer.HeadLoaded? || run[k].producer.DepthHead?
    ensures var d, e, level := run[k].drops, run[k + 1].drops, run[k].producer.item.level;
            && e.critical == d.critical + (if level == Critical then 1 else 0)
            && e.warning == d.warning + (if level == Warning then 1 else 0)
            && e.info == d.info + (if level == Info || level == Recovery then 1 else 0)
            && e.pushFail == d.pushFail + 1
            && e.reserve == d.reserve + (if run[k].producer.DepthHead? then 1 else 0)
  {
    assert Next(c, run[k], run[k + 1]);
    hide Depth, Increment, RejectsForReserve;
  }

  /** The high watermark, and the depth that is about to become it, are lengths that the queue really had. */
  ghost predicate WasLength(run: seq<Ring>, k: nat, n: int)
    requires k < |run|
  {
    n == 0 || exists m :: 0 <= m <= k && Length(run[m]) == n
  }

  ghost predicate MarksAreReal(run: seq<Ring>, k: nat)
    requires k < |run|
  {
    && WasLength(run, k, run[k].highWatermark)
    && (run[k].producer.Mark? || run[k].producer.MarkCas? ==> WasLength(run, k, run[k].producer.current))
  }

  lemma {:induction false} WatermarkWasReal(c: RingConfig, run: seq<Ring>, k: nat)
    requires Run(c, run) && k < |run|
    ensures MarksAreReal(run, k)
    decreases k
  {
    if k > 0 {
      WatermarkWasReal(c, run, k - 1);
      RunInv(c, run, k - 1);
      assert Next(c, run[k - 1], run[k - 1 + 1]);
      DepthIsLength(|run[k - 1].accepted|, |run[k - 1].popped|, c.capacity);
      MarkedReal(c, run, k);
    }
  }

  lemma LengthsStay(run: seq<Ring>, k: nat)
    requires 0 < k < |run|
    ensures WasLength(run, k, Length(run[k - 1])) && WasLength(run, k, 0)
    ensures forall n :: WasLength(run, k - 1, n) ==> WasLength(run, k, n)
  {
  }

  lemma MarkedReal(c: RingConfig, run: seq<Ring>, k: nat)
    requires 0 < k < |run| && MarksAreReal(run, k - 1) && Inv(c, run[k - 1]) && Next(c, run[k - 1], run[k])
    ensures MarksAreReal(run, k)
  {
    var s, t := run[k - 1], run[k];
    DepthIsLength(|s.accepted|, |s.popped|, c.capacity);
    LengthsStay(run, k);
    if t.producer.Mark? && s.producer.MarkHead? { assert Length(run[k - 1]) == t.producer.current; }
    hide WasLength, Shape, NonCritical, Slot, Depth, Increment, ReserveKept, Accounted, RejectsForReserve,
      ReserveApplies, RecordDrop;
  }

  /** Accepted items and the three drop counters add up to the attempts whenever no push is under way. */
  lemma EveryPushIsCounted(c: RingConfig, run: seq<Ring>, k: nat)
    requires Run(c, run) && k < |run| && run[k].producer.Idle?
    ensures var d := run[k].drops;
            && run[k].attempts == |run[k].accepted| + d.info + d.warning + d.critical
            && d.pushFail == d.info + d.warning + d.critical
  {
    RunInv(c, run, k);
  }
}
