/** The bounded ring: slot arithmetic, the critical reserve, and the buffer as one thread at a time sees it. */
module SpscRing {
  import opened Events

  // ---- Slots ----

  /** The slot of the n-th item ever accepted. */
  function Slot(n: nat, capacity: nat): (s: nat)
    requires capacity > 0
    ensures s < capacity
  {
    n % capacity
  }

  function Increment(value: nat, capacity: nat): nat
    requires capacity > 0
  {
    (value + 1) % capacity
  }

  /** depth(), from one value of head_ and one of tail_. */
  function Depth(head: nat, tail: nat, capacity: nat): nat
    requires head < capacity && tail < capacity
  {
    if head >= tail then head - tail else capacity - tail + head
  }

  lemma {:induction false} MulGap(q: nat, p: nat, c: nat)
    requires q < p
    ensures q * c + c <= p * c
    decreases p
  {
    if q + 1 < p { MulGap(q, p - 1, c); }
    assert p * c == (p - 1) * c + c;
  }

  lemma ModIs(x: nat, q: nat, r: nat, capacity: nat)
    requires capacity > 0 && x == q * capacity + r && r < capacity
    ensures x % capacity == r
  {
    var p := x / capacity;
    assert x == p * capacity + x % capacity;
    if p > q { MulGap(q, p, capacity); }
    if q > p { MulGap(p, q, capacity); }
  }

  lemma SlotAdd(n: nat, d: nat, capacity: nat)
    requires capacity > 0 && d < capacity
    ensures Slot(n + d, capacity) ==
            if Slot(n, capacity) + d < capacity then Slot(n, capacity) + d else Slot(n, capacity) + d - capacity
  {
    var q, r := n / capacity, n % capacity;
    if r + d < capacity {
      ModIs(n + d, q, r + d, capacity);
    } else {
      ModIs(n + d, q + 1, r + d - capacity, capacity);
    }
  }

  lemma IncrementSlot(n: nat, capacity: nat)
    requires capacity > 0
    ensures Increment(Slot(n, capacity), capacity) == Slot(n + 1, capacity)
  {
    var q, r := n / capacity, n % capacity;
    if r + 1 < capacity {
      ModIs(n + 1, q, r + 1, capacity);
      ModIs(r + 1, 0, r + 1, capacity);
    } else {
      ModIs(n + 1, q + 1, 0, capacity);
      ModIs(r + 1, 1, 0, capacity);
    }
  }

  /** Two items less than a lap apart share no slot. */
  lemma SlotsDiffer(a: nat, b: nat, capacity: nat)
    requires capacity > 0 && a < b < a + capacity
    ensures Slot(a, capacity) != Slot(b, capacity)
  {
    SlotAdd(a, b - a, capacity);
  }

  lemma DepthIsLength(accepted: nat, popped: nat, capacity: nat)
    requires capacity > 0 && popped <= accepted < popped + capacity
    ensures Depth(Slot(accepted, capacity), Slot(popped, capacity), capacity) == accepted - popped
  {
    SlotAdd(popped, accepted - popped, capacity);
  }

  /** The full test compares equal exactly when one more item would close the lap. */
  lemma FullTest(accepted: nat, popped: nat, capacity: nat)
    requires capacity > 0 && popped <= accepted < popped + capacity
    ensures Increment(Slot(accepted, capacity), capacity) == Slot(popped, capacity)
       <==> accepted - popped == capacity - 1
  {
    IncrementSlot(accepted, capacity);
    if accepted - popped == capacity - 1 {
      ModIs(popped + capacity, popped / capacity + 1, popped % capacity, capacity);
    } else {
      SlotsDiffer(popped, accepted + 1, capacity);
    }
  }

  lemma EmptyTest(accepted: nat, popped: nat, capacity: nat)
    requires capacity > 0 && popped <= accepted < popped + capacity
    ensures Slot(accepted, capacity) == Slot(popped, capacity) <==> accepted == popped
  {
    if accepted != popped { SlotsDiffer(popped, accepted, capacity); }
  }

  // ---- The reserve ----

  datatype RingConfig = RingConfig(capacity: nat, reserved: nat, dropInfo: bool, dropWarning: bool) {
    function Usable(): nat
      requires capacity > 0
    {
      capacity - 1
    }
  }

  /** Levels for which should_reject_for_reserve looks at the depth at all. */
  predicate ReserveApplies(c: RingConfig, level: Level) {
    && level != Critical && c.reserved != 0
    && (level == Warning ==> c.dropWarning)
    && (level == Info || level == Recovery ==> c.dropInfo)
  }

  /** The slots kept back, never all of them. */
  function Reserve(c: RingConfig): nat
    requires c.capacity > 0
  {
    if c.Usable() == 0 then 0 else if c.reserved >= c.Usable() then c.Usable() - 1 else c.reserved
  }

  predicate RejectsForReserve(c: RingConfig, level: Level, depth: nat)
    requires c.capacity > 0 && depth <= c.Usable()
  {
    ReserveApplies(c, level) && (c.Usable() == 0 || c.Usable() - depth <= Reserve(c))
  }

  /** Whether emplace takes an item of this level into a queue of this length. */
  predicate Takes(c: RingConfig, level: Level, depth: nat) {
    && c.capacity > 0 && depth < c.Usable()
    && (ReserveApplies(c, level) ==> c.Usable() - depth > Reserve(c))
  }

  /**
    Which levels may not use how many slots: Critical may use all, and the others keep `reserved` slots free, but never
    all of them, as far as they are told to give way.
  */
  lemma TakesExactly(c: RingConfig, level: Level, depth: nat)
    requires c.capacity > 0 && depth <= c.capacity - 1
    ensures level == Critical ==> (Takes(c, level, depth) <==> depth < c.capacity - 1)
    ensures level == Warning && !c.dropWarning ==> (Takes(c, level, depth) <==> depth < c.capacity - 1)
    ensures (level == Info || level == Recovery) && !c.dropInfo ==>
              (Takes(c, level, depth) <==> depth < c.capacity - 1)
    ensures c.reserved == 0 ==> (Takes(c, level, depth) <==> depth < c.capacity - 1)
    ensures (level == Warning && c.dropWarning) || ((level == Info || level == Recovery) && c.dropInfo) ==>
              c.reserved > 0 ==>
                var free := c.capacity - 1 - depth;
                (Takes(c, level, depth) <==>
                 free > 0 && free > if c.reserved < c.capacity - 2 then c.reserved else c.capacity - 2)
  {
  }

  // ---- The shape of the buffer ----

  /** head and tail are the slots of the next item in and the next item out, and the items between are in place. */
  ghost predicate Shape(buffer: seq<Event>, head: nat, tail: nat, accepted: seq<Event>, popped: nat) {
    var capacity := |buffer|;
    && capacity > 0 && popped <= |accepted| < popped + capacity
    && head == Slot(|accepted|, capacity) && tail == Slot(popped, capacity)
    && forall k :: popped <= k < |accepted| ==> buffer[Slot(k, capacity)] == accepted[k]
  }

  /** Writing the free slot disturbs nothing that can be read, and publishing it appends the item. */
  lemma WriteKeepsShape(buffer: seq<Event>, head: nat, tail: nat, accepted: seq<Event>, popped: nat, item: Event)
    requires Shape(buffer, head, tail, accepted, popped) && |accepted| - popped < |buffer| - 1
    ensures Shape(buffer[head := item], head, tail, accepted, popped)
    ensures Shape(buffer[head := item], Increment(head, |buffer|), tail, accepted + [item], popped)
  {
    var capacity := |buffer|;
    forall k | popped <= k < |accepted| ensures Slot(k, capacity) != head { SlotsDiffer(k, |accepted|, capacity); }
    IncrementSlot(|accepted|, capacity);
  }

  lemma PopKeepsShape(buffer: seq<Event>, head: nat, tail: nat, accepted: seq<Event>, popped: nat)
    requires Shape(buffer, head, tail, accepted, popped) && popped < |accepted|
    ensures buffer[tail] == accepted[popped]
    ensures Shape(buffer, head, Increment(tail, |buffer|), accepted, popped + 1)
  {
    IncrementSlot(popped, |buffer|);
  }

  // ---- How many of the queued items are critical ----

  function NonCritical(items: seq<Event>): (n: nat)
    ensures n <= |items|
  {
    if items == [] then 0
    else NonCritical(items[..|items| - 1]) + if items[|items| - 1].level == Critical then 0 else 1
  }

  lemma NonCriticalSnoc(items: seq<Event>, item: Event)
    ensures NonCritical(items + [item]) == NonCritical(items) + if item.level == Critical then 0 else 1
  {
    assert (items + [item])[..|items|] == items;
  }

  lemma {:induction false} NonCriticalTail(items: seq<Event>)
    requires items != []
    ensures NonCritical(items[1..]) <= NonCritical(items)
  {
    if |items| > 1 {
      NonCriticalTail(items[..|items| - 1]);
      assert items[1..][..|items| - 2] == items[..|items| - 1][1..];
    }
  }

  // ---- The buffer ----

  /** A ring whose calls do not overlap: RingProtocol is about the interleaved ones. */
  class SpscRingBuffer {
    const config: RingConfig
    const buffer: array<Event>
    var head: nat
    var tail: nat
    var highWatermark: nat
    var pushFailCount: nat
    var droppedInfo: nat
    var droppedWarning: nat
    var droppedCritical: nat
    var reserveRejects: nat

    ghost var accepted: seq<Event>
    ghost var popped: seq<Event>

    ghost predicate Valid()
      reads this, buffer
    {
      && buffer.Length == config.capacity && popped <= accepted
      && Shape(buffer[..], head, tail, accepted, |popped|)
      && |accepted| - |popped| <= highWatermark <= config.Usable()
      && pushFailCount == droppedInfo + droppedWarning + droppedCritical
    }

    /** The items in the queue, oldest first. */
    ghost function Queued(): seq<Event>
      reads this, buffer
      requires Valid()
    {
      accepted[|popped|..]
    }

    constructor (capacity: nat, reserved: nat, dropInfo: bool, dropWarning: bool)
      ensures Valid() && fresh(buffer) && config == RingConfig(capacity + 1, reserved, dropInfo, dropWarning)
      ensures accepted == [] && popped == [] && pushFailCount == 0 && highWatermark == 0 && reserveRejects == 0
    {
      config := RingConfig(capacity + 1, reserved, dropInfo, dropWarning);
      buffer := new Event[capacity + 1](_ => Event(0, Info));
      head, tail, highWatermark := 0, 0, 0;
      pushFailCount, droppedInfo, droppedWarning, droppedCritical, reserveRejects := 0, 0, 0, 0, 0;
      accepted, popped := [], [];
    }

    method CurrentDepth() returns (depth: nat)
      requires Valid()
      ensures depth == |Queued()|
    {
      DepthIsLength(|accepted|, |popped|, config.capacity);
      depth := Depth(head, tail, config.capacity);
    }

    method RecordDrop(level: Level, byReserve: bool)
      modifies this`pushFailCount, this`reserveRejects, this`droppedInfo, this`droppedWarning, this`droppedCritical
      ensures pushFailCount == old(pushFailCount) + 1
      ensures reserveRejects == old(reserveRejects) + (if byReserve then 1 else 0)
      ensures droppedCritical == old(droppedCritical) + (if level == Critical then 1 else 0)
      ensures droppedWarning == old(droppedWarning) + (if level == Warning then 1 else 0)
      ensures droppedInfo == old(droppedInfo) + (if level == Info || level == Recovery then 1 else 0)
    {
      pushFailCount := pushFailCount + 1;
      if byReserve { reserveRejects := reserveRejects + 1; }
      if level == Critical {
        droppedCritical := droppedCritical + 1;
      } else if level == Warning {
        droppedWarning := droppedWarning + 1;
      } else {
        droppedInfo := droppedInfo + 1;
      }
    }

    /** emplace: refused when full or when only the reserve is left, appended otherwise. */
    method Push(item: Event) returns (ok: bool)
      requires Valid()
      modifies this, buffer
      ensures Valid() && popped == old(popped)
      ensures ok <==> Takes(config, item.level, old(|Queued()|))
      ensures var free := config.capacity - 1 - old(|Queued()|);
              var givesWay := (item.level == Warning && config.dropWarning)
                              || ((item.level == Info || item.level == Recovery) && config.dropInfo);
              var kept := if config.reserved < config.capacity - 2 then config.reserved else config.capacity - 2;
              ok <==> free > 0 && (givesWay && config.reserved > 0 ==> free > kept)
      ensures accepted == old(accepted) + (if ok then [item] else [])
      ensures pushFailCount == old(pushFailCount) + (if ok then 0 else 1)
      ensures droppedCritical == old(droppedCritical) + (if !ok && item.level == Critical then 1 else 0)
      ensures droppedWarning == old(droppedWarning) + (if !ok && item.level == Warning then 1 else 0)
      ensures droppedInfo == old(droppedInfo) + (if !ok && item.level in {Info, Recovery} then 1 else 0)
      ensures reserveRejects
           == old(reserveRejects) + (if !ok && old(|Queued()|) < config.capacity - 1 then 1 else 0)
      ensures highWatermark == if ok && |accepted| - |popped| > old(highWatermark) then |accepted| - |popped|
                               else old(highWatermark)
    {
      var next := Increment(head, config.capacity);
      FullTest(|accepted|, |popped|, config.capacity);
      TakesExactly(config, item.level, |Queued()|);
      if next == tail {
        RecordDrop(item.level, false);
        return false;
      }
      var depth := CurrentDepth();
      if RejectsForReserve(config, item.level, depth) {
        RecordDrop(item.level, true);
        return false;
      }
      Accept(item);
      return true;
    }

    /** The second half of emplace: write the free slot, publish it, and raise the high watermark. */
    method Accept(item: Event)
      requires Valid() && |Queued()| < config.Usable()
      modifies this`head, this`accepted, this`highWatermark, buffer
      ensures Valid() && accepted == old(accepted) + [item]
      ensures highWatermark == if |accepted| - |popped| > old(highWatermark) then |accepted| - |popped|
                               else old(highWatermark)
    {
      WriteKeepsShape(buffer[..], head, tail, accepted, |popped|, item);
      ghost var written := buffer[..][head := item];
      buffer[head] := item;
      assert buffer[..] == written;
      head, accepted := Increment(head, config.capacity), accepted + [item];
      DepthIsLength(|accepted|, |popped|, config.capacity);
      var current := Depth(head, tail, config.capacity);
      if current > highWatermark { highWatermark := current; }
    }

    /** pop: the oldest item, or nothing. */
    method Pop() returns (ok: bool, item: Event)
      requires Valid()
      modifies this`tail, this`popped
      ensures Valid() && (ok <==> old(Queued()) != [])
      ensures ok ==> item == old(Queued())[0] && popped == old(popped) + [item]
      ensures !ok ==> popped == old(popped)
    {
      EmptyTest(|accepted|, |popped|, config.capacity);
      if tail == head { return false, Event(0, Info); }
      PopKeepsShape(buffer[..], head, tail, accepted, |popped|);
      item := buffer[tail];
      tail, popped := Increment(tail, config.capacity), popped + [item];
      return true, item;
    }
  }
}
