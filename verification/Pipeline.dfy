/**
  The event path as one state machine: collectors publish into source queues, one dispatcher per source queue copies
  every event to a queue of each sink, and each sink's worker takes from its queues.

  The queues are the fifos that RingProtocol shows them to be; a push may be refused. Every atomic operation of every
  thread is a step of its own, and the steps of all threads interleave freely.
*/
module Pipeline {
  import opened Sequences
  import opened Events

  datatype Queue = Queue(accepted: seq<Event>, popped: nat, refused: nat) {
    predicate Valid() { popped <= |accepted| }

    predicate Empty() { popped == |accepted| }

    function Offered(): nat { |accepted| + refused }

    function Push(e: Event, ok: bool): Queue {
      if ok then this.(accepted := accepted + [e]) else this.(refused := refused + 1)
    }
  }

  const NEW_QUEUE := Queue([], 0, 0)

  /** Where EventDispatcher::run is. */
  datatype Dispatcher = Polling | Popped(event: Event) | Forwarding(event: Event, next: nat) | Exited

  /** One source queue, its dispatcher, and its collector, which may hold an event that has its number already. */
  datatype Lane = Lane(holding: Option<Event>, source: Queue, dispatcher: Dispatcher, stopping: bool,
                       consumed: nat, failures: nat, outlets: seq<Queue>)

  /** Where a sink's worker is: the drain after its stop walks over the lanes. */
  datatype Worker = Working | Draining(lane: nat) | Finished

  /** The log says what the worker has taken, and from which lane. */
  datatype Sink = Sink(worker: Worker, log: seq<(nat, Event)>)

  datatype Pipe = Pipe(next: nat, publishing: bool, lanes: seq<Lane>, sinks: seq<Sink>)

  ghost predicate Init(s: Pipe) {
    && s.next == 1 && s.publishing
    && (forall l :: 0 <= l < |s.lanes| ==>
          && |s.lanes[l].outlets| == |s.sinks|
          && s.lanes[l] == Lane(None, NEW_QUEUE, Polling, false, 0, 0, s.lanes[l].outlets)
          && forall m :: 0 <= m < |s.sinks| ==> s.lanes[l].outlets[m] == NEW_QUEUE)
    && (forall m :: 0 <= m < |s.sinks| ==> s.sinks[m] == Sink(Working, []))
  }

  // ---- Steps ----

  /** The second half of publish_event: the push of the numbered event. */
  ghost predicate Offers(a: Lane, b: Lane) {
    a.holding.Some? && exists ok :: b == a.(holding := None, source := a.source.Push(a.holding.value, ok))
  }

  /** One step of EventDispatcher::run, drain_source or dispatch. */
  ghost predicate Dispatches(a: Lane, b: Lane) {
    match a.dispatcher
    case Polling =>
      if !a.source.Empty() then
        && a.source.Valid()
        && b == a.(source := a.source.(popped := a.source.popped + 1),
                   dispatcher := Popped(a.source.accepted[a.source.popped]))
      else a.stopping && b == a.(dispatcher := Exited)
    case Popped(e) =>
      b == a.(consumed := a.consumed + 1, dispatcher := Forwarding(e, 0))
    case Forwarding(e, k) =>
      if k < |a.outlets| then
        exists ok ::
          b == a.(outlets := a.outlets[k := a.outlets[k].Push(e, ok)], dispatcher := Forwarding(e, k + 1),
                  failures := a.failures + if ok then 0 else 1)
      else b == a.(dispatcher := Polling)
    case Exited => false
  }

  /** Monitor::stop tells a dispatcher to stop only after it has joined the collectors. */
  ghost predicate LaneStep(a: Lane, b: Lane, publishing: bool) {
    Offers(a, b) || Dispatches(a, b) || (!publishing && b == a.(stopping := true))
  }

  /** The first half of publish_event: the event takes the next number. */
  ghost predicate Assigns(s: Pipe, t: Pipe, l: nat) {
    && l < |s.lanes| && s.publishing && s.lanes[l].holding.None?
    && exists level ::
         t == s.(next := s.next + 1, lanes := s.lanes[l := s.lanes[l].(holding := Some(Event(s.next, level)))])
  }

  ghost predicate LaneSteps(s: Pipe, t: Pipe, l: nat) {
    && l < |s.lanes| == |t.lanes| && LaneStep(s.lanes[l], t.lanes[l], s.publishing)
    && t == s.(lanes := s.lanes[l := t.lanes[l]])
  }

  predicate DispatchersDone(s: Pipe) {
    forall l :: 0 <= l < |s.lanes| ==> s.lanes[l].dispatcher == Exited
  }

  /** The worker of sink m takes the oldest event of its queue on lane l. */
  ghost predicate Takes(s: Pipe, t: Pipe, m: nat, l: nat) {
    && m < |s.sinks| && l < |s.lanes| && m < |s.lanes[l].outlets|
    && var q := s.lanes[l].outlets[m];
    && q.Valid() && !q.Empty()
    && t == s.(lanes := s.lanes[l := s.lanes[l].(outlets := s.lanes[l].outlets[m := q.(popped := q.popped + 1)])],
               sinks := s.sinks[m := s.sinks[m].(log := s.sinks[m].log + [(l, q.accepted[q.popped])])])
  }

  /** One step of a sink's worker: take from any queue; once stopped, empty lane after lane, and maybe start over. */
  ghost predicate SinkSteps(s: Pipe, t: Pipe, m: nat) {
    && m < |s.sinks|
    && match s.sinks[m].worker
       case Working =>
         || (exists l: nat :: Takes(s, t, m, l))
         || (DispatchersDone(s) && t == s.(sinks := s.sinks[m := s.sinks[m].(worker := Draining(0))]))
       case Draining(l) =>
         if l < |s.lanes| then
           if m < |s.lanes[l].outlets| && !s.lanes[l].outlets[m].Empty() then Takes(s, t, m, l)
           else t == s.(sinks := s.sinks[m := s.sinks[m].(worker := Draining(l + 1))])
         else
           || t == s.(sinks := s.sinks[m := s.sinks[m].(worker := Draining(0))])
           || t == s.(sinks := s.sinks[m := s.sinks[m].(worker := Finished)])
       case Finished => false
  }

  /** Monitor::stop has joined the collectors. */
  ghost predicate JoinsCollectors(s: Pipe, t: Pipe) {
    && (forall l :: 0 <= l < |s.lanes| ==> s.lanes[l].holding.None?)
    && t == s.(publishing := false)
  }

  ghost predicate Next(s: Pipe, t: Pipe) {
    || (exists l: nat :: Assigns(s, t, l))
    || (exists l: nat :: LaneSteps(s, t, l))
    || JoinsCollectors(s, t)
    || (exists m: nat :: SinkSteps(s, t, m))
  }

  // ---- What every step keeps, lane by lane ----

  /** The events of a lane that have a number and are not lost. */
  function Issued(a: Lane): seq<Event> {
    a.source.accepted + if a.holding.Some? then [a.holding.value] else []
  }

  ghost predicate Ordered(events: seq<Event>) {
    forall i, j :: 0 <= i < j < |events| ==> events[i].sequence < events[j].sequence
  }

  ghost predicate Below(events: seq<Event>, limit: nat) {
    forall i :: 0 <= i < |events| ==> events[i].sequence < limit
  }

  function Refused(outlets: seq<Queue>): nat {
    if outlets == [] then 0 else Refused(outlets[..|outlets| - 1]) + outlets[|outlets| - 1].refused
  }

  function Accepted(outlets: seq<Queue>): nat {
    if outlets == [] then 0 else Accepted(outlets[..|outlets| - 1]) + |outlets[|outlets| - 1].accepted|
  }

  /** How many events the dispatcher has offered to outlet m. */
  function OfferedTo(a: Lane, m: nat): int {
    if a.dispatcher.Forwarding? && m >= a.dispatcher.next then a.consumed - 1 else a.consumed
  }

  /** The outlet holds a selection of the first n events of the source; the others it has refused. */
  ghost predicate Selects(q: Queue, events: seq<Event>, n: int) {
    && q.Valid() && 0 <= n <= |events| && q.Offered() == n && Subseq(q.accepted, events[..n])
  }

  ghost predicate DispatcherInv(a: Lane) {
    && a.source.Valid()
    && a.consumed + (if a.dispatcher.Popped? then 1 else 0) == a.source.popped
    && (a.dispatcher.Popped? || a.dispatcher.Forwarding? ==>
          a.source.popped > 0 && a.dispatcher.event == a.source.accepted[a.source.popped - 1])
    && (a.dispatcher.Forwarding? ==> a.dispatcher.next <= |a.outlets|)
    && a.failures == Refused(a.outlets)
    && forall m :: 0 <= m < |a.outlets| ==> Selects(a.outlets[m], a.source.accepted, OfferedTo(a, m))
  }

  ghost predicate StopInv(a: Lane, publishing: bool) {
    && (!publishing ==> a.holding.None?)
    && (a.stopping ==> !publishing)
    && (a.dispatcher.Exited? ==> a.stopping && a.source.Empty())
  }

  ghost predicate LaneInv(a: Lane, next: nat, publishing: bool, sinks: nat) {
    && |a.outlets| == sinks && Ordered(Issued(a)) && Below(Issued(a), next)
    && DispatcherInv(a) && StopInv(a, publishing)
  }

  lemma {:induction false} RefusedUpdate(outlets: seq<Queue>, k: nat, q: Queue)
    requires k < |outlets|
    ensures Refused(outlets[k := q]) == Refused(outlets) - outlets[k].refused + q.refused
  {
    var n := |outlets| - 1;
    if k < n {
      RefusedUpdate(outlets[..n], k, q);
      assert outlets[k := q][..n] == outlets[..n][k := q];
    } else {
      assert outlets[k := q][..n] == outlets[..n];
    }
  }

  /** The outlet keeps its selection when the source accepts one more. */
  lemma SelectsGrown(q: Queue, events: seq<Event>, n: int, more: seq<Event>)
    requires Selects(q, events, n)
    ensures Selects(q, events + more, n)
  {
    assert (events + more)[..n] == events[..n];
  }

  lemma SelectsPush(q: Queue, events: seq<Event>, n: int, ok: bool)
    requires Selects(q, events, n) && n < |events|
    ensures Selects(q.Push(events[n], ok), events, n + 1)
  {
    assert events[..n + 1] == events[..n] + [events[n]];
    if ok {
      SubseqRefl([events[n]]);
      SubseqAppend(q.accepted, events[..n], [events[n]], [events[n]]);
    } else {
      SubseqAppend(q.accepted, events[..n], [], [events[n]]);
      assert q.accepted + [] == q.accepted;
    }
  }

  lemma OffersKeeps(a: Lane, b: Lane, next: nat, publishing: bool, sinks: nat)
    requires LaneInv(a, next, publishing, sinks) && Offers(a, b)
    ensures LaneInv(b, next, publishing, sinks)
    ensures Issued(b) == Issued(a) || Issued(b) == Issued(a)[..|Issued(a)| - 1]
  {
    assert Issued(b) == Issued(a) || Issued(b) == Issued(a)[..|Issued(a)| - 1];
    assert a.source.accepted == Issued(a)[..|Issued(a)| - 1];
    forall m | 0 <= m < |b.outlets| ensures Selects(b.outlets[m], b.source.accepted, OfferedTo(b, m)) {
      SelectsGrown(a.outlets[m], a.source.accepted, OfferedTo(a, m), [a.holding.value]);
    }
    hide Subseq, Selects, Refused;
  }

  lemma ForwardsKeeps(a: Lane, b: Lane)
    requires DispatcherInv(a) && a.dispatcher.Forwarding? && a.dispatcher.next < |a.outlets| && Dispatches(a, b)
    ensures DispatcherInv(b)
  {
    var k, e := a.dispatcher.next, a.dispatcher.event;
    var ok :| b == a.(outlets := a.outlets[k := a.outlets[k].Push(e, ok)], dispatcher := Forwarding(e, k + 1),
                      failures := a.failures + if ok then 0 else 1);
    PushedKeeps(a, ok);
    hide DispatcherInv;
  }

  lemma PushedKeeps(a: Lane, ok: bool)
    requires DispatcherInv(a) && a.dispatcher.Forwarding? && a.dispatcher.next < |a.outlets|
    ensures var k, e := a.dispatcher.next, a.dispatcher.event;
            DispatcherInv(a.(outlets := a.outlets[k := a.outlets[k].Push(e, ok)], dispatcher := Forwarding(e, k + 1),
                             failures := a.failures + if ok then 0 else 1))
  {
    var k, e := a.dispatcher.next, a.dispatcher.event;
    var b := a.(outlets := a.outlets[k := a.outlets[k].Push(e, ok)], dispatcher := Forwarding(e, k + 1),
                failures := a.failures + if ok then 0 else 1);
    RefusedUpdate(a.outlets, k, a.outlets[k].Push(e, ok));
    forall m | 0 <= m < |b.outlets| ensures Selects(b.outlets[m], b.source.accepted, OfferedTo(b, m)) {
      PushKeepsOutlet(a, b, ok, m);
    }
    hide Selects, Refused, OfferedTo;
  }

  lemma PushKeepsOutlet(a: Lane, b: Lane, ok: bool, m: nat)
    requires DispatcherInv(a) && a.dispatcher.Forwarding? && a.dispatcher.next < |a.outlets| && m < |a.outlets|
    requires var k, e := a.dispatcher.next, a.dispatcher.event;
             && b.outlets == a.outlets[k := a.outlets[k].Push(e, ok)] && b.dispatcher == Forwarding(e, k + 1)
             && b.source == a.source && b.consumed == a.consumed
    ensures Selects(b.outlets[m], b.source.accepted, OfferedTo(b, m))
  {
    assert Selects(a.outlets[m], a.source.accepted, OfferedTo(a, m));
    if m == a.dispatcher.next { SelectsPush(a.outlets[m], a.source.accepted, a.consumed - 1, ok); }
    hide Selects, Refused, DispatcherInv;
  }

  lemma DispatchesKeeps(a: Lane, b: Lane, next: nat, publishing: bool, sinks: nat)
    requires LaneInv(a, next, publishing, sinks) && Dispatches(a, b)
    ensures LaneInv(b, next, publishing, sinks) && Issued(b) == Issued(a)
  {
    assert Issued(b) == Issued(a);
    if a.dispatcher.Forwarding? && a.dispatcher.next < |a.outlets| {
      ForwardsKeeps(a, b);
      hide DispatcherInv;
    } else {
      hide Refused, Selects;
      forall m | 0 <= m < |b.outlets| ensures Selects(b.outlets[m], b.source.accepted, OfferedTo(b, m)) {
        assert Selects(a.outlets[m], a.source.accepted, OfferedTo(a, m));
      }
    }
  }

  /** A sink that takes from an outlet leaves the rest of the lane as it was. */
  lemma TakeKeepsLane(a: Lane, m: nat, next: nat, publishing: bool, sinks: nat)
    requires LaneInv(a, next, publishing, sinks) && m < |a.outlets| && a.outlets[m].Valid() && !a.outlets[m].Empty()
    ensures var q := a.outlets[m];
            var b := a.(outlets := a.outlets[m := q.(popped := q.popped + 1)]);
            LaneInv(b, next, publishing, sinks) && Issued(b) == Issued(a)
  {
    var q := a.outlets[m];
    TakeKeepsDispatcher(a, a.(outlets := a.outlets[m := q.(popped := q.popped + 1)]), m);
    hide DispatcherInv, Ordered, Below;
  }

  lemma TakeKeepsDispatcher(a: Lane, b: Lane, m: nat)
    requires DispatcherInv(a) && m < |a.outlets| && !a.outlets[m].Empty()
    requires b == a.(outlets := a.outlets[m := a.outlets[m].(popped := a.outlets[m].popped + 1)])
    ensures DispatcherInv(b)
  {
    RefusedUpdate(a.outlets, m, b.outlets[m]);
    forall i | 0 <= i < |b.outlets| ensures Selects(b.outlets[i], b.source.accepted, OfferedTo(b, i)) {
      TakeKeepsOutlet(a, b, m, i);
    }
    hide Selects, Refused, OfferedTo;
  }

  lemma TakeKeepsOutlet(a: Lane, b: Lane, m: nat, i: nat)
    requires DispatcherInv(a) && m < |a.outlets| && i < |a.outlets| && !a.outlets[m].Empty()
    requires b == a.(outlets := a.outlets[m := a.outlets[m].(popped := a.outlets[m].popped + 1)])
    ensures Selects(b.outlets[i], b.source.accepted, OfferedTo(b, i))
  {
    assert Selects(a.outlets[i], a.source.accepted, OfferedTo(a, i));
    if i == m { SelectsTaken(a.outlets[m], a.source.accepted, OfferedTo(a, m)); }
    hide Selects, Refused, DispatcherInv;
  }

  lemma SelectsTaken(q: Queue, events: seq<Event>, n: int)
    requires Selects(q, events, n) && !q.Empty()
    ensures Selects(q.(popped := q.popped + 1), events, n)
  {
  }
}
