/** depth() from a thread that is neither producer nor consumer: head_ is loaded in one state and tail_ in a later. */
module RingObserver {
  import opened Events
  import opened SpscRing
  import opened RingProtocol

  // ---- What it computes ----

  lemma RemainderIs(x: int, q: int, r: nat, capacity: nat)
    requires r < capacity && x == q * capacity + r
    ensures x % capacity == r
  {
    var p := x / capacity;
    var gap := p - q;
    assert gap * capacity == r - x % capacity;
    if gap >= 1 { Product(gap, capacity); }
    if gap <= -1 { Product(-gap, capacity); }
  }

  lemma Product(a: int, b: nat)
    requires a >= 1
    ensures a * b >= b
  {
  }

  /** The distance of two slots is the difference of the counts, up to whole laps. */
  lemma DepthIsDifference(accepted: nat, popped: nat, capacity: nat)
    requires capacity > 0
    ensures Depth(Slot(accepted, capacity), Slot(popped, capacity), capacity) == (accepted - popped) % capacity
  {
    var head, tail := accepted % capacity, popped % capacity;
    var laps := accepted / capacity - popped / capacity;
    assert accepted - popped == laps * capacity + head - tail;
    if head >= tail {
      RemainderIs(accepted - popped, laps, head - tail, capacity);
    } else {
      RemainderIs(accepted - popped, laps - 1, capacity + head - tail, capacity);
    }
  }

  /** A step accepts an item, pops one, or does neither. */
  predicate OneCountMoves(s: Ring, t: Ring) {
    || (|t.popped| == |s.popped| && |s.accepted| <= |t.accepted| <= |s.accepted| + 1)
    || (|t.popped| == |s.popped| + 1 && |t.accepted| == |s.accepted|)
  }

  lemma StepCounts(c: RingConfig, s: Ring, t: Ring)
    requires Next(c, s, t)
    ensures OneCountMoves(s, t)
  {
    hide Depth, Increment, RecordDrop, RejectsForReserve;
  }

  lemma RunCounts(c: RingConfig, run: seq<Ring>)
    requires Run(c, run)
    ensures forall i :: 0 <= i < |run| - 1 ==> OneCountMoves(run[i], run[i + 1])
  {
    forall i | 0 <= i < |run| - 1 ensures OneCountMoves(run[i], run[i + 1]) { StepCounts(c, run[i], run[i + 1]); }
  }

  lemma {:induction false} CountsGrow(run: seq<Ring>, j: nat, k: nat)
    requires j <= k < |run| && forall i :: 0 <= i < |run| - 1 ==> OneCountMoves(run[i], run[i + 1])
    ensures |run[j].accepted| <= |run[k].accepted| && |run[j].popped| <= |run[k].popped|
    decreases k
  {
    if j < k {
      CountsGrow(run, j, k - 1);
      assert OneCountMoves(run[k - 1], run[k - 1 + 1]);
    }
  }

  /**
    The depth stays within the usable capacity. It is the difference of the two counts it saw, up to whole laps, and
    exactly that difference if and only if the consumer has not overtaken the head it saw.
  */
  lemma ThirdPartyDepth(c: RingConfig, run: seq<Ring>, j: nat, k: nat)
    requires Run(c, run) && j <= k < |run|
    ensures run[j].head < c.capacity && run[k].tail < c.capacity
    ensures var seen, difference := Depth(run[j].head, run[k].tail, c.capacity), |run[j].accepted| - |run[k].popped|;
            && seen <= c.Usable() && seen == difference % c.capacity
            && (seen == difference <==> |run[k].popped| <= |run[j].accepted|)
  {
    RunInv(c, run, j);
    RunInv(c, run, k);
    RunCounts(c, run);
    CountsGrow(run, j, k);
    var accepted, popped := |run[j].accepted|, |run[k].popped|;
    DepthIsDifference(accepted, popped, c.capacity);
    if popped <= accepted { RemainderIs(accepted - popped, 0, accepted - popped, c.capacity); }
    hide Depth, Slot, ProducerKnows, ConsumerKnows, ReserveKept, Accounted;
  }

  // ---- Whether the queue was ever so long ----

  /** Between the two loads the queue had the length that they make up. */
  ghost predicate WasSoLong(c: RingConfig, run: seq<Ring>, j: nat, k: nat)
    requires j <= k < |run|
  {
    && run[j].head < c.capacity && run[k].tail < c.capacity
    && exists m :: j <= m <= k && Length(run[m]) == Depth(run[j].head, run[k].tail, c.capacity)
  }

  /** While it is not overtaken: the depth was real exactly if all the pops came before the first push. */
  lemma RealInstant(c: RingConfig, run: seq<Ring>, j: nat, k: nat)
    requires Run(c, run) && j <= k < |run| && |run[k].popped| <= |run[j].accepted|
    ensures WasSoLong(c, run, j, k)
       <==> exists m :: && j <= m <= k && |run[m].accepted| == |run[j].accepted|
                        && |run[m].popped| == |run[k].popped|
  {
    ThirdPartyDepth(c, run, j, k);
    RunCounts(c, run);
    hide Depth, Run;
    forall m | j <= m <= k ensures |run[j].accepted| <= |run[m].accepted| && |run[m].popped| <= |run[k].popped| {
      CountsGrow(run, j, m);
      CountsGrow(run, m, k);
    }
  }

  /** Lengths change by one at most, so every length between two others comes between them. */
  lemma {:induction false} SomeLength(run: seq<Ring>, j: nat, k: nat, n: int) returns (m: nat)
    requires j <= k < |run| && forall i :: 0 <= i < |run| - 1 ==> OneCountMoves(run[i], run[i + 1])
    requires Length(run[j]) <= n <= Length(run[k]) || Length(run[k]) <= n <= Length(run[j])
    ensures j <= m <= k && Length(run[m]) == n
    decreases k
  {
    if Length(run[k]) == n {
      m := k;
    } else {
      assert OneCountMoves(run[k - 1], run[k - 1 + 1]);
      m := SomeLength(run, j, k - 1, n);
    }
  }

  /**
    Overtaken or not, any number of times: the depth was real exactly if the queue was at most that long at one instant
    between the loads, and at least that long at another.
  */
  lemma RealBetween(c: RingConfig, run: seq<Ring>, j: nat, k: nat)
    requires Run(c, run) && j <= k < |run|
    ensures run[j].head < c.capacity && run[k].tail < c.capacity
    ensures var seen := Depth(run[j].head, run[k].tail, c.capacity);
            WasSoLong(c, run, j, k)
            <==> && (exists m :: j <= m <= k && Length(run[m]) <= seen)
                 && (exists m :: j <= m <= k && Length(run[m]) >= seen)
  {
    ThirdPartyDepth(c, run, j, k);
    RunCounts(c, run);
    var seen := Depth(run[j].head, run[k].tail, c.capacity);
    hide Depth, Run, OneCountMoves;
    if x, y :| j <= x <= k && j <= y <= k && Length(run[x]) <= seen <= Length(run[y]) {
      var m := SomeLength(run, if x <= y then x else y, if x <= y then y else x, seen);
    }
  }

  // ---- A run in which it never was ----

  function Last(run: seq<Ring>): Ring
    requires run != []
  {
    run[|run| - 1]
  }

  /** Nothing is under way, and so much has been accepted and popped. */
  ghost predicate Quiet(run: seq<Ring>, accepted: nat, popped: nat) {
    && run != [] && Last(run).producer.Idle? && Last(run).consumer.Waiting?
    && |Last(run).accepted| == accepted && |Last(run).popped| == popped
  }

  /** The run goes on with one state more. */
  lemma Extend(c: RingConfig, run: seq<Ring>, t: Ring)
    requires Run(c, run) && Next(c, Last(run), t)
    ensures Run(c, run + [t]) && Last(run + [t]) == t
  {
    var more := run + [t];
    forall k | 0 <= k < |more| - 1 ensures Next(c, more[k], more[k + 1]) {
      if k < |run| - 1 { assert Next(c, run[k], run[k + 1]); }
    }
    hide Next;
  }

  /** Between two lengths in the states after the first n. */
  ghost predicate LengthsWithin(run: seq<Ring>, n: nat, low: int, high: int) {
    forall m :: n <= m < |run| ==> low <= Length(run[m]) <= high
  }

  lemma PushBegins(c: RingConfig, run: seq<Ring>, e: Event, a: nat, p: nat) returns (more: seq<Ring>)
    requires Run(c, run) && Quiet(run, a, p) && p <= a && a - p < c.Usable() && e.level == Critical
    ensures Run(c, more) && run <= more && Last(more).producer.Written? && Last(more).consumer.Waiting?
    ensures |Last(more).accepted| == a && |Last(more).popped| == p
    ensures LengthsWithin(more, |run|, a - p, a - p)
  {
    var s := Last(run);
    RunInv(c, run, |run| - 1);
    FullTest(a, p, c.capacity);
    hide Inv, Run, Slot, Increment, ProducerKnows, ConsumerKnows, ReserveKept, Accounted;
    var head := s.head;
    var s1 := s.(producer := HeadLoaded(e, head), attempts := s.attempts + 1);
    var s2, s3 := s1.(producer := HasRoom(e, head)), s1.(producer := Admitted(e, head));
    var s4 := s3.(producer := Written(e, head), buffer := s.buffer[head := e]);
    assert ProducerStep(c, s, s1);
    more := run + [s1];
    Extend(c, run, s1);
    Extend(c, more, s2);
    more := more + [s2];
    Extend(c, more, s3);
    more := more + [s3];
    Extend(c, more, s4);
    more := more + [s4];
  }

  lemma PushPublishes(c: RingConfig, run: seq<Ring>, a: nat, p: nat) returns (more: seq<Ring>)
    requires Run(c, run) && run != [] && Last(run).producer.Written? && Last(run).consumer.Waiting?
    requires |Last(run).accepted| == a && |Last(run).popped| == p
    ensures Run(c, more) && run <= more && Last(more).producer.Published? && Last(more).consumer.Waiting?
    ensures |Last(more).accepted| == a + 1 && |Last(more).popped| == p
    ensures LengthsWithin(more, |run|, a + 1 - p, a + 1 - p)
  {
    var s := Last(run);
    RunInv(c, run, |run| - 1);
    var s1 := s.(producer := Published, head := Increment(s.producer.head, c.capacity),
                 accepted := s.accepted + [s.producer.item]);
    assert ProducerStep(c, s, s1);
    hide Inv, Run, ProducerKnows, ConsumerKnows, ReserveKept, Accounted;
    Extend(c, run, s1);
    more := run + [s1];
  }

  /** The high watermark is raised, if it has to be. */
  lemma PushEnds(c: RingConfig, run: seq<Ring>, a: nat, p: nat) returns (more: seq<Ring>)
    requires Run(c, run) && run != [] && Last(run).producer.Published? && Last(run).consumer.Waiting?
    requires |Last(run).accepted| == a && |Last(run).popped| == p
    ensures Run(c, more) && run <= more && Quiet(more, a, p) && LengthsWithin(more, |run|, a - p, a - p)
  {
    var s := Last(run);
    RunInv(c, run, |run| - 1);
    assert WellFormed(c, s);
    hide Inv, Run, Slot, Depth, ProducerKnows, ConsumerKnows, ReserveKept, Accounted, ConsumerStep, Queue;
    var current := Depth(s.head, s.tail, c.capacity);
    var s1, s2 := s.(producer := MarkHead(s.head)), s.(producer := Mark(current));
    var s3 := s.(producer := MarkCas(current, s.highWatermark));
    var s4 := s.(producer := Idle, highWatermark := if current <= s.highWatermark then s.highWatermark else current);
    Extend(c, run, s1);
    more := run + [s1];
    Extend(c, more, s2);
    more := more + [s2];
    Extend(c, more, s3);
    more := more + [s3];
    Extend(c, more, s4);
    more := more + [s4];
  }

  lemma PushRuns(c: RingConfig, run: seq<Ring>, e: Event, a: nat, p: nat) returns (more: seq<Ring>)
    requires Run(c, run) && Quiet(run, a, p) && p <= a && a - p < c.Usable() && e.level == Critical
    ensures Run(c, more) && run <= more && Quiet(more, a + 1, p) && LengthsWithin(more, |run|, a - p, a + 1 - p)
  {
    var begun := PushBegins(c, run, e, a, p);
    var published := PushPublishes(c, begun, a, p);
    more := PushEnds(c, published, a + 1, p);
    assert forall m :: |run| <= m < |begun| ==> more[m] == begun[m];
    assert forall m :: |begun| <= m < |published| ==> more[m] == published[m];
    hide Run, Length;
  }

  lemma PopRuns(c: RingConfig, run: seq<Ring>, a: nat, p: nat) returns (more: seq<Ring>)
    requires Run(c, run) && Quiet(run, a, p) && p < a
    ensures Run(c, more) && run <= more && Quiet(more, a, p + 1) && LengthsWithin(more, |run|, a - p - 1, a - p)
  {
    var s := Last(run);
    RunInv(c, run, |run| - 1);
    EmptyTest(a, p, c.capacity);
    hide Inv, Run, Slot, ProducerKnows, ConsumerKnows, ReserveKept, Accounted;
    var tail := s.tail;
    var s1, s2 := s.(consumer := TailLoaded(tail)), s.(consumer := NonEmpty(tail));
    var s3 := s.(consumer := Taken(tail, s.buffer[tail]));
    var s4 := s.(consumer := Waiting, tail := Increment(tail, c.capacity), popped := s.popped + [s.buffer[tail]]);
    Extend(c, run, s1);
    more := run + [s1];
    Extend(c, more, s2);
    more := more + [s2];
    Extend(c, more, s3);
    more := more + [s3];
    Extend(c, more, s4);
    more := more + [s4];
  }

  function Empty(c: RingConfig): Ring {
    Ring(seq(c.capacity, _ => Event(0, Info)), 0, 0, 0, Drops(0, 0, 0, 0, 0), Idle, Waiting, 0, [], [])
  }

  /**
    One item is queued, a second is pushed and the first is popped: a depth whose loads enclose the two is 0, although
    the queue was never empty.
  */
  lemma NeverSoShort(c: RingConfig) returns (run: seq<Ring>, j: nat, k: nat)
    requires c.capacity > 0 && c.Usable() >= 2
    ensures Run(c, run) && j <= k < |run| && run[j].head < c.capacity && run[k].tail < c.capacity
    ensures Depth(run[j].head, run[k].tail, c.capacity) == 0 && LengthsWithin(run[..k + 1], j, 1, 2)
    ensures !WasSoLong(c, run, j, k)
  {
    var e := Event(0, Critical);
    var start := [Empty(c)];
    assert Run(c, start) && Quiet(start, 0, 0);
    hide Run;
    var one := PushRuns(c, start, e, 0, 0);
    var two := PushRuns(c, one, e, 1, 0);
    run := PopRuns(c, two, 2, 0);
    j, k := |one| - 1, |run| - 1;
    ThirdPartyDepth(c, run, j, k);
    RemainderIs(0, 0, 0, c.capacity);
    assert run[j] == Last(one);
    forall m | j <= m <= k ensures 1 <= Length(run[m]) <= 2 {
      if m < |two| { assert run[m] == two[m]; }
    }
  }

  // ---- The rings in which it always was ----

  /** Where the count of pops changes, the length goes down by one. */
  lemma {:induction false} SomePop(run: seq<Ring>, j: nat, k: nat) returns (m: nat)
    requires j <= k < |run| && |run[j].popped| < |run[k].popped|
    requires forall i :: 0 <= i < |run| - 1 ==> OneCountMoves(run[i], run[i + 1])
    ensures j < m <= k && Length(run[m - 1]) == Length(run[m]) + 1
    decreases k
  {
    assert OneCountMoves(run[k - 1], run[k - 1 + 1]);
    if |run[k - 1].popped| < |run[k].popped| { m := k; } else { m := SomePop(run, j, k - 1); }
  }

  lemma LengthFits(c: RingConfig, run: seq<Ring>, m: nat)
    requires Run(c, run) && m < |run| && c.capacity > 0
    ensures 0 <= Length(run[m]) <= c.Usable()
  {
    RingIsAFifo(c, run, m);
  }

  /** A ring for one item has both its lengths around every pop. */
  lemma AlwaysSoLong(c: RingConfig, run: seq<Ring>, j: nat, k: nat)
    requires Run(c, run) && j <= k < |run| && c.capacity > 0 && c.Usable() <= 1
    ensures WasSoLong(c, run, j, k)
  {
    hide Run, Depth, OneCountMoves;
    ThirdPartyDepth(c, run, j, k);
    LengthFits(c, run, j);
    RunCounts(c, run);
    CountsGrow(run, j, k);
    var seen := Depth(run[j].head, run[k].tail, c.capacity);
    if |run[k].popped| == |run[j].popped| {
      assert Length(run[j]) == seen;
    } else {
      var m := SomePop(run, j, k);
      LengthFits(c, run, m);
      LengthFits(c, run, m - 1);
      assert seen == Length(run[m]) || seen == Length(run[m - 1]);
    }
  }

  /** Every depth a third thread can see was real, in every run, exactly when the ring holds at most one item. */
  lemma AlwaysRealExactly(c: RingConfig)
    requires c.capacity > 0
    ensures (forall run: seq<Ring>, j: nat, k: nat | Run(c, run) && j <= k < |run| :: WasSoLong(c, run, j, k))
       <==> c.Usable() <= 1
  {
    if c.Usable() <= 1 {
      forall run: seq<Ring>, j: nat, k: nat | Run(c, run) && j <= k < |run| ensures WasSoLong(c, run, j, k) {
        AlwaysSoLong(c, run, j, k);
      }
    } else {
      var run, j, k := NeverSoShort(c);
    }
  }
}
