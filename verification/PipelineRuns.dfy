/** Whole runs of the event path: order, conservation, and what holds once Monitor::stop has returned. */
module PipelineRuns {
  import opened Sequences
  import opened Events
  import opened Pipeline

  /** Two lanes never issue the same number. */
  ghost predicate Apart(a: seq<Event>, b: seq<Event>) {
    forall i, j :: 0 <= i < |a| && 0 <= j < |b| ==> a[i].sequence != b[j].sequence
  }

  ghost predicate LanesApart(lanes: seq<Lane>) {
    forall k, l :: 0 <= k < |lanes| && 0 <= l < |lanes| && k != l ==> Apart(Issued(lanes[k]), Issued(lanes[l]))
  }

  ghost predicate LanesInv(s: Pipe) {
    forall l :: 0 <= l < |s.lanes| ==> LaneInv(s.lanes[l], s.next, s.publishing, |s.sinks|)
  }

  /** How many numbers a lane has taken. */
  function Taken(a: Lane): nat {
    a.source.Offered() + if a.holding.Some? then 1 else 0
  }

  function TakenByAll(lanes: seq<Lane>): nat {
    if lanes == [] then 0 else TakenByAll(lanes[..|lanes| - 1]) + Taken(lanes[|lanes| - 1])
  }

  /** What a sink has taken from one lane, in order. */
  function FromLane(log: seq<(nat, Event)>, l: nat): seq<Event> {
    if log == [] then []
    else FromLane(log[..|log| - 1], l) + if log[|log| - 1].0 == l then [log[|log| - 1].1] else []
  }

  ghost predicate LogInv(log: seq<(nat, Event)>, lanes: seq<Lane>, m: nat) {
    && (forall l :: 0 <= l < |lanes| ==>
          && m < |lanes[l].outlets| && lanes[l].outlets[m].Valid()
          && FromLane(log, l) == lanes[l].outlets[m].accepted[..lanes[l].outlets[m].popped])
    && forall i :: 0 <= i < |log| ==> log[i].0 < |lanes|
  }

  ghost predicate EmptyBelow(lanes: seq<Lane>, m: nat, k: nat) {
    forall l :: 0 <= l < k && l < |lanes| ==> m < |lanes[l].outlets| && lanes[l].outlets[m].Empty()
  }

  ghost predicate WorkerInv(worker: Worker, lanes: seq<Lane>, m: nat) {
    match worker
    case Working => true
    case Draining(k) => AllExited(lanes) && k <= |lanes| && EmptyBelow(lanes, m, k)
    case Finished => AllExited(lanes) && EmptyBelow(lanes, m, |lanes|)
  }

  predicate AllExited(lanes: seq<Lane>) {
    forall l :: 0 <= l < |lanes| ==> lanes[l].dispatcher == Exited
  }

  ghost predicate SinkInv(sink: Sink, lanes: seq<Lane>, m: nat) {
    LogInv(sink.log, lanes, m) && WorkerInv(sink.worker, lanes, m)
  }

  ghost predicate Inv(s: Pipe) {
    && LanesInv(s) && LanesApart(s.lanes) && s.next == 1 + TakenByAll(s.lanes)
    && forall m :: 0 <= m < |s.sinks| ==> SinkInv(s.sinks[m], s.lanes, m)
  }

  lemma {:induction false} NothingTaken(lanes: seq<Lane>)
    requires forall l :: 0 <= l < |lanes| ==> Taken(lanes[l]) == 0
    ensures TakenByAll(lanes) == 0
  {
    if lanes != [] { NothingTaken(lanes[..|lanes| - 1]); }
  }

  lemma {:induction false} NothingRefused(outlets: seq<Queue>)
    requires forall m :: 0 <= m < |outlets| ==> outlets[m] == NEW_QUEUE
    ensures Refused(outlets) == 0
  {
    if outlets != [] { NothingRefused(outlets[..|outlets| - 1]); }
  }

  lemma InitInv(s: Pipe)
    requires Init(s)
    ensures Inv(s)
  {
    forall l | 0 <= l < |s.lanes|
      ensures LaneInv(s.lanes[l], s.next, s.publishing, |s.sinks|) && Issued(s.lanes[l]) == [] && Taken(s.lanes[l]) == 0
    {
      NewLane(s.lanes[l], s.next, s.publishing, |s.sinks|);
    }
    forall m | 0 <= m < |s.sinks| ensures SinkInv(s.sinks[m], s.lanes, m) {
      NewSink(s.sinks[m], s.lanes, m);
    }
    hide LaneInv, SinkInv, Issued, Taken;
    NothingTaken(s.lanes);
  }

  lemma NewLane(a: Lane, next: nat, publishing: bool, sinks: nat)
    requires |a.outlets| == sinks && a == Lane(None, NEW_QUEUE, Polling, false, 0, 0, a.outlets) && publishing
    requires forall m :: 0 <= m < sinks ==> a.outlets[m] == NEW_QUEUE
    ensures LaneInv(a, next, publishing, sinks) && Issued(a) == [] && Taken(a) == 0
  {
    NothingRefused(a.outlets);
    hide Refused;
  }

  lemma NewSink(sink: Sink, lanes: seq<Lane>, m: nat)
    requires sink == Sink(Working, [])
    requires forall l :: 0 <= l < |lanes| ==> m < |lanes[l].outlets| && lanes[l].outlets[m] == NEW_QUEUE
    ensures SinkInv(sink, lanes, m)
  {
  }

  lemma {:induction false} TakenUpdate(lanes: seq<Lane>, k: nat, a: Lane)
    requires k < |lanes|
    ensures TakenByAll(lanes[k := a]) == TakenByAll(lanes) - Taken(lanes[k]) + Taken(a)
  {
    var n := |lanes| - 1;
    if k < n {
      TakenUpdate(lanes[..n], k, a);
      assert lanes[k := a][..n] == lanes[..n][k := a];
    } else {
      assert lanes[k := a][..n] == lanes[..n];
    }
  }

  /** What a sink can see of a lane only grows, and nothing moves any more once its dispatcher has exited. */
  ghost predicate Extends(a: Lane, b: Lane) {
    && |a.outlets| == |b.outlets|
    && (forall m :: 0 <= m < |a.outlets| ==>
          a.outlets[m].accepted <= b.outlets[m].accepted && a.outlets[m].popped == b.outlets[m].popped)
    && (a.dispatcher.Exited? ==> b.dispatcher.Exited? && a.outlets == b.outlets)
  }

  lemma LaneStepExtends(a: Lane, b: Lane, publishing: bool)
    requires LaneStep(a, b, publishing)
    ensures Extends(a, b) && Taken(b) == Taken(a)
  {
  }

  /** Changing one lane in a way that only extends it disturbs no sink. */
  lemma ExtendingKeepsSink(sink: Sink, lanes: seq<Lane>, m: nat, k: nat, b: Lane)
    requires SinkInv(sink, lanes, m) && k < |lanes| && Extends(lanes[k], b)
    ensures SinkInv(sink, lanes[k := b], m)
  {
    var after := lanes[k := b];
    forall l | 0 <= l < |after|
      ensures m < |after[l].outlets| && after[l].outlets[m].Valid()
              && FromLane(sink.log, l) == after[l].outlets[m].accepted[..after[l].outlets[m].popped]
    {
      assert lanes[l].outlets[m].Valid();
    }
    hide FromLane;
  }

  lemma ApartShrunk(lanes: seq<Lane>, k: nat, b: Lane)
    requires LanesApart(lanes) && k < |lanes| && Issued(b) <= Issued(lanes[k])
    ensures LanesApart(lanes[k := b])
  {
    var after := lanes[k := b];
    hide Issued;
    forall i, j | 0 <= i < |after| && 0 <= j < |after| && i != j ensures Apart(Issued(after[i]), Issued(after[j])) {
      assert Apart(Issued(lanes[i]), Issued(lanes[j]));
    }
  }

  lemma ApartFresh(lanes: seq<Lane>, k: nat, b: Lane, e: Event)
    requires LanesApart(lanes) && k < |lanes| && Issued(b) == Issued(lanes[k]) + [e]
    requires forall l :: 0 <= l < |lanes| ==> Below(Issued(lanes[l]), e.sequence)
    ensures LanesApart(lanes[k := b])
  {
    var after := lanes[k := b];
    hide Issued;
    forall i, j | 0 <= i < |after| && 0 <= j < |after| && i != j ensures Apart(Issued(after[i]), Issued(after[j])) {
      assert Apart(Issued(lanes[i]), Issued(lanes[j]));
    }
  }

  lemma NumberingKeepsLane(a: Lane, e: Event, publishing: bool, sinks: nat)
    requires LaneInv(a, e.sequence, publishing, sinks) && a.holding.None? && publishing
    ensures var b := a.(holding := Some(e));
            LaneInv(b, e.sequence + 1, publishing, sinks) && Issued(b) == Issued(a) + [e]
            && Extends(a, b) && Taken(b) == Taken(a) + 1
  {
    var b := a.(holding := Some(e));
    assert Issued(b) == Issued(a) + [e];
    hide Selects, Refused;
    forall m | 0 <= m < |b.outlets| ensures Selects(b.outlets[m], b.source.accepted, OfferedTo(b, m)) {
      assert Selects(a.outlets[m], a.source.accepted, OfferedTo(a, m));
    }
  }

  lemma AssignsKeeps(s: Pipe, t: Pipe, l: nat)
    requires Inv(s) && Assigns(s, t, l)
    ensures Inv(t)
  {
    var a, b := s.lanes[l], t.lanes[l];
    var e := b.holding.value;
    NumberingKeepsLane(a, e, s.publishing, |s.sinks|);
    forall k | 0 <= k < |s.lanes| ensures Below(Issued(s.lanes[k]), e.sequence) {
      assert LaneInv(s.lanes[k], s.next, s.publishing, |s.sinks|);
    }
    ApartFresh(s.lanes, l, b, e);
    TakenUpdate(s.lanes, l, b);
    hide DispatcherInv, Issued, TakenByAll, LanesApart, Taken, SinkInv;
    SinksKept(s, t, l);
    forall k | 0 <= k < |t.lanes| ensures LaneInv(t.lanes[k], t.next, t.publishing, |t.sinks|) {
      assert LaneInv(s.lanes[k], s.next, s.publishing, |s.sinks|);
    }
  }

  lemma SinksKept(s: Pipe, t: Pipe, l: nat)
    requires Inv(s) && l < |s.lanes| == |t.lanes| && t.lanes == s.lanes[l := t.lanes[l]] && t.sinks == s.sinks
    requires Extends(s.lanes[l], t.lanes[l])
    ensures forall m :: 0 <= m < |t.sinks| ==> SinkInv(t.sinks[m], t.lanes, m)
  {
    forall m | 0 <= m < |s.sinks| ensures SinkInv(t.sinks[m], t.lanes, m) {
      ExtendingKeepsSink(s.sinks[m], s.lanes, m, l, t.lanes[l]);
    }
  }

  lemma LaneStepsKeeps(s: Pipe, t: Pipe, l: nat)
    requires Inv(s) && LaneSteps(s, t, l)
    ensures Inv(t)
  {
    var a, b := s.lanes[l], t.lanes[l];
    LaneStepKeepsLane(a, b, s.next, s.publishing, |s.sinks|);
    LaneStepExtends(a, b, s.publishing);
    hide LaneStep, LaneInv, Issued, TakenByAll, LanesApart, Taken, SinkInv, Extends;
    ApartShrunk(s.lanes, l, b);
    TakenUpdate(s.lanes, l, b);
    SinksKept(s, t, l);
  }

  lemma LaneStepKeepsLane(a: Lane, b: Lane, next: nat, publishing: bool, sinks: nat)
    requires LaneInv(a, next, publishing, sinks) && LaneStep(a, b, publishing)
    ensures LaneInv(b, next, publishing, sinks) && Issued(b) <= Issued(a)
  {
    if Offers(a, b) {
      OffersKeeps(a, b, next, publishing, sinks);
    } else if Dispatches(a, b) {
      DispatchesKeeps(a, b, next, publishing, sinks);
    } else {
      assert Issued(b) == Issued(a);
      hide Selects, Refused, Dispatches, Offers;
      forall m | 0 <= m < |b.outlets| ensures Selects(b.outlets[m], b.source.accepted, OfferedTo(b, m)) {
        assert Selects(a.outlets[m], a.source.accepted, OfferedTo(a, m));
      }
    }
  }

  lemma JoinsKeeps(s: Pipe, t: Pipe)
    requires Inv(s) && JoinsCollectors(s, t)
    ensures Inv(t)
  {
    forall l | 0 <= l < |s.lanes| ensures LaneInv(t.lanes[l], t.next, t.publishing, |t.sinks|) {
      assert LaneInv(s.lanes[l], s.next, s.publishing, |s.sinks|);
      hide DispatcherInv, Issued;
    }
    hide LaneInv, SinkInv;
  }

  // ---- Sinks ----

  lemma FromLaneSnoc(log: seq<(nat, Event)>, entry: (nat, Event), l: nat)
    ensures FromLane(log + [entry], l) == FromLane(log, l) + if entry.0 == l then [entry.1] else []
  {
    assert (log + [entry])[..|log|] == log;
  }

  lemma TakesKeepsLog(s: Pipe, t: Pipe, m: nat, k: nat, i: nat)
    requires Takes(s, t, m, k) && i < |s.sinks| && LogInv(s.sinks[i].log, s.lanes, i)
    ensures LogInv(t.sinks[i].log, t.lanes, i)
  {
    var q := s.lanes[k].outlets[m];
    var e := q.accepted[q.popped];
    assert q.accepted[..q.popped + 1] == q.accepted[..q.popped] + [e];
    forall l | 0 <= l < |t.lanes|
      ensures i < |t.lanes[l].outlets| && t.lanes[l].outlets[i].Valid()
              && FromLane(t.sinks[i].log, l) == t.lanes[l].outlets[i].accepted[..t.lanes[l].outlets[i].popped]
    {
      assert s.lanes[l].outlets[i].Valid();
      if i == m { FromLaneSnoc(s.sinks[m].log, (k, e), l); }
    }
    hide FromLane;
  }

  /** Taking never empties what is not yet empty by more than one event, so empty queues stay empty. */
  lemma TakesKeepsWorker(s: Pipe, t: Pipe, m: nat, k: nat, i: nat)
    requires Takes(s, t, m, k) && i < |s.sinks| && WorkerInv(s.sinks[i].worker, s.lanes, i)
    requires i == m ==> !s.sinks[m].worker.Finished? && (s.sinks[m].worker.Draining? ==> s.sinks[m].worker.lane == k)
    ensures WorkerInv(t.sinks[i].worker, t.lanes, i)
  {
    assert AllExited(s.lanes) ==> AllExited(t.lanes) by {
      forall l | 0 <= l < |t.lanes| && AllExited(s.lanes) ensures t.lanes[l].dispatcher == Exited {
        assert s.lanes[l].dispatcher == Exited;
      }
    }
    forall n: nat | EmptyBelow(s.lanes, i, n) && (i == m ==> n <= k) ensures EmptyBelow(t.lanes, i, n) {
      forall l | 0 <= l < n && l < |t.lanes| ensures i < |t.lanes[l].outlets| && t.lanes[l].outlets[i].Empty() {
        assert s.lanes[l].outlets[i].Empty();
      }
    }
  }

  lemma TakesKeeps(s: Pipe, t: Pipe, m: nat, k: nat)
    requires Inv(s) && Takes(s, t, m, k)
    requires !s.sinks[m].worker.Finished? && (s.sinks[m].worker.Draining? ==> s.sinks[m].worker.lane == k)
    ensures Inv(t)
  {
    TakesKeepsLane(s, t, m, k);
    TakesKeepsSinks(s, t, m, k);
    hide LaneInv, SinkInv, LanesApart, TakenByAll, Issued, Taken, Takes;
    TakenUpdate(s.lanes, k, t.lanes[k]);
    ApartShrunk(s.lanes, k, t.lanes[k]);
  }

  lemma TakesKeepsLane(s: Pipe, t: Pipe, m: nat, k: nat)
    requires LanesInv(s) && Takes(s, t, m, k)
    ensures k < |s.lanes| == |t.lanes| && t == s.(lanes := s.lanes[k := t.lanes[k]], sinks := t.sinks)
    ensures |t.sinks| == |s.sinks| && LaneInv(t.lanes[k], t.next, t.publishing, |t.sinks|)
    ensures Issued(t.lanes[k]) == Issued(s.lanes[k]) && Taken(t.lanes[k]) == Taken(s.lanes[k])
  {
    assert LaneInv(s.lanes[k], s.next, s.publishing, |s.sinks|);
    TakeKeepsLane(s.lanes[k], m, s.next, s.publishing, |s.sinks|);
    hide LaneInv;
  }

  lemma TakesKeepsSinks(s: Pipe, t: Pipe, m: nat, k: nat)
    requires Takes(s, t, m, k) && forall i :: 0 <= i < |s.sinks| ==> SinkInv(s.sinks[i], s.lanes, i)
    requires !s.sinks[m].worker.Finished? && (s.sinks[m].worker.Draining? ==> s.sinks[m].worker.lane == k)
    ensures forall i :: 0 <= i < |t.sinks| ==> SinkInv(t.sinks[i], t.lanes, i)
  {
    forall i | 0 <= i < |t.sinks| ensures SinkInv(t.sinks[i], t.lanes, i) {
      assert SinkInv(s.sinks[i], s.lanes, i);
      TakesKeepsLog(s, t, m, k, i);
      TakesKeepsWorker(s, t, m, k, i);
      hide LogInv, WorkerInv, Takes;
    }
  }

  lemma SinkStepsKeeps(s: Pipe, t: Pipe, m: nat)
    requires Inv(s) && SinkSteps(s, t, m)
    ensures Inv(t)
  {
    if k: nat :| Takes(s, t, m, k) && !s.sinks[m].worker.Finished?
                 && (s.sinks[m].worker.Draining? ==> s.sinks[m].worker.lane == k) {
      TakesKeeps(s, t, m, k);
    } else {
      assert t == s.(sinks := s.sinks[m := s.sinks[m].(worker := t.sinks[m].worker)]);
      assert SinkInv(s.sinks[m], s.lanes, m);
      hide Takes, FromLane;
      assert LogInv(s.sinks[m].log, s.lanes, m);
      assert WorkerInv(t.sinks[m].worker, s.lanes, m);
      MovesKeeps(s, t, m);
    }
  }

  lemma MovesKeeps(s: Pipe, t: Pipe, m: nat)
    requires Inv(s) && m < |s.sinks| == |t.sinks| && WorkerInv(t.sinks[m].worker, s.lanes, m)
    requires t == s.(sinks := s.sinks[m := s.sinks[m].(worker := t.sinks[m].worker)])
    ensures Inv(t)
  {
    hide LaneInv, LogInv, WorkerInv, LanesApart, TakenByAll;
    forall i | 0 <= i < |t.sinks| ensures SinkInv(t.sinks[i], t.lanes, i) {
      assert SinkInv(s.sinks[i], s.lanes, i);
    }
  }

  lemma NextKeeps(s: Pipe, t: Pipe)
    requires Inv(s) && Next(s, t)
    ensures Inv(t)
  {
    hide Inv, Assigns, LaneSteps, SinkSteps, JoinsCollectors;
    if l: nat :| Assigns(s, t, l) {
      AssignsKeeps(s, t, l);
    } else if l: nat :| LaneSteps(s, t, l) {
      LaneStepsKeeps(s, t, l);
    } else if m: nat :| SinkSteps(s, t, m) {
      SinkStepsKeeps(s, t, m);
    } else {
      JoinsKeeps(s, t);
    }
  }

  ghost predicate Run(run: seq<Pipe>) {
    && run != [] && Init(run[0])
    && forall k :: 0 <= k < |run| - 1 ==> Next(run[k], run[k + 1])
  }

  lemma {:induction false} RunInv(run: seq<Pipe>, k: nat)
    requires Run(run) && k < |run|
    ensures Inv(run[k])
  {
    if k == 0 {
      InitInv(run[0]);
    } else {
      RunInv(run, k - 1);
      assert Next(run[k - 1], run[k - 1 + 1]);
      NextKeeps(run[k - 1], run[k]);
    }
  }

  // ---- Order ----

  lemma {:induction false} SubseqMember(a: seq<Event>, b: seq<Event>, i: nat) returns (j: nat)
    requires Subseq(a, b) && i < |a|
    ensures i <= j < |b| && a[i] == b[j]
    decreases |b|
  {
    var init := b[..|b| - 1];
    if a[|a| - 1] == b[|b| - 1] && Subseq(a[..|a| - 1], init) {
      if i == |a| - 1 {
        j := |b| - 1;
        SubseqShorter(a, b);
      } else {
        j := SubseqMember(a[..|a| - 1], init, i);
      }
    } else {
      j := SubseqMember(a, init, i);
    }
  }

  lemma {:induction false} SubseqShorter(a: seq<Event>, b: seq<Event>)
    requires Subseq(a, b)
    ensures |a| <= |b|
    decreases |b|
  {
    if a != [] {
      var init := b[..|b| - 1];
      if a[|a| - 1] == b[|b| - 1] && Subseq(a[..|a| - 1], init) {
        SubseqShorter(a[..|a| - 1], init);
      } else {
        SubseqShorter(a, init);
      }
    }
  }

  lemma {:induction false} SubseqOrdered(a: seq<Event>, b: seq<Event>)
    requires Subseq(a, b) && Ordered(b)
    ensures Ordered(a)
    decreases |b|
  {
    if a != [] {
      var init := b[..|b| - 1];
      if a[|a| - 1] == b[|b| - 1] && Subseq(a[..|a| - 1], init) {
        SubseqOrdered(a[..|a| - 1], init);
        forall i | 0 <= i < |a| - 1 ensures a[i].sequence < a[|a| - 1].sequence {
          var j := SubseqMember(a[..|a| - 1], init, i);
        }
        forall i, j | 0 <= i < j < |a| ensures a[i].sequence < a[j].sequence {
          if j < |a| - 1 { assert a[..|a| - 1][i] == a[i] && a[..|a| - 1][j] == a[j]; }
        }
      } else {
        SubseqOrdered(a, init);
      }
    }
  }

  /**
    In every reachable state each queue carries strictly increasing numbers, and a sink's queue carries a selection, in
    order, of what its dispatcher has taken from the source.
  */
  lemma QueuesAreOrdered(run: seq<Pipe>, k: nat, l: nat, m: nat)
    requires Run(run) && k < |run| && l < |run[k].lanes| && m < |run[k].sinks|
    ensures var a := run[k].lanes[l];
            && m < |a.outlets| && a.source.popped <= |a.source.accepted|
            && Ordered(a.source.accepted) && Ordered(a.outlets[m].accepted)
            && Subseq(a.outlets[m].accepted, a.source.accepted[..a.source.popped])
  {
    RunInv(run, k);
    var a := run[k].lanes[l];
    assert LaneInv(a, run[k].next, run[k].publishing, |run[k].sinks|);
    assert a.source.accepted == Issued(a)[..|a.source.accepted|];
    var n := OfferedTo(a, m);
    assert Selects(a.outlets[m], a.source.accepted, n);
    SubseqOrdered(a.outlets[m].accepted, a.source.accepted[..n]);
    SubseqOfPrefix(a.source.accepted[..n], a.source.accepted[..a.source.popped]);
    SubseqTrans(a.outlets[m].accepted, a.source.accepted[..n], a.source.accepted[..a.source.popped]);
  }

  // ---- Conservation ----

  /** How many of the first n outlets the event in flight has still to be offered to. */
  function Outstanding(a: Lane, n: nat): nat {
    if a.dispatcher.Forwarding? && a.dispatcher.next < n then n - a.dispatcher.next else 0
  }

  lemma OneMoreOutlet(outlets: seq<Queue>, n: nat)
    requires 0 < n <= |outlets|
    ensures Accepted(outlets[..n]) == Accepted(outlets[..n - 1]) + |outlets[n - 1].accepted|
    ensures Refused(outlets[..n]) == Refused(outlets[..n - 1]) + outlets[n - 1].refused
  {
    assert outlets[..n][..n - 1] == outlets[..n - 1];
  }

  lemma {:induction false} OutletsAddUp(a: Lane, n: nat)
    requires DispatcherInv(a) && n <= |a.outlets|
    ensures Accepted(a.outlets[..n]) + Refused(a.outlets[..n]) + Outstanding(a, n) == n * a.consumed
  {
    if n > 0 {
      OutletsAddUp(a, n - 1);
      assert Selects(a.outlets[n - 1], a.source.accepted, OfferedTo(a, n - 1));
      OneMoreOutlet(a.outlets, n);
      assert n * a.consumed == (n - 1) * a.consumed + a.consumed;
      hide Accepted, Refused, Selects, DispatcherInv;
    }
  }

  /**
    In every reachable state: what a dispatcher has consumed, once for each sink, is what the sinks' queues accepted,
    plus the counted push failures, plus what the event in flight has still to be offered to.
  */
  lemma FanOutConserves(run: seq<Pipe>, k: nat, l: nat)
    requires Run(run) && k < |run| && l < |run[k].lanes|
    ensures var a := run[k].lanes[l];
            && Accepted(a.outlets) + a.failures + Outstanding(a, |run[k].sinks|) == |run[k].sinks| * a.consumed
            && a.source.popped == a.consumed + (if a.dispatcher.Popped? then 1 else 0)
  {
    RunInv(run, k);
    var a := run[k].lanes[l];
    assert LaneInv(a, run[k].next, run[k].publishing, |run[k].sinks|);
    OutletsAddUp(a, |a.outlets|);
    assert a.outlets[..|a.outlets|] == a.outlets;
  }

  // ---- Exactly once ----

  lemma {:induction false} FromLaneAt(log: seq<(nat, Event)>, i: nat)
    requires i < |log|
    ensures var l := log[i].0;
            |FromLane(log[..i], l)| < |FromLane(log, l)| && FromLane(log, l)[|FromLane(log[..i], l)|] == log[i].1
  {
    var n := |log| - 1;
    if i < n {
      FromLaneAt(log[..n], i);
      assert log[..n][..i] == log[..i];
    }
  }

  lemma {:induction false} FromLaneGrows(log: seq<(nat, Event)>, i: nat, j: nat, l: nat)
    requires i <= j <= |log|
    ensures |FromLane(log[..i], l)| + (if i < j && log[i].0 == l then 1 else 0) <= |FromLane(log[..j], l)|
    decreases j
  {
    if i < j {
      assert log[..j][..j - 1] == log[..j - 1];
      FromLaneGrows(log, i, j - 1, l);
    }
  }

  /** In every reachable state no sink has taken two events of the same number, whichever lanes they came by. */
  lemma NoEventTwice(run: seq<Pipe>, k: nat, m: nat, i: nat, j: nat)
    requires Run(run) && k < |run| && m < |run[k].sinks| && i < j < |run[k].sinks[m].log|
    ensures run[k].sinks[m].log[i].1.sequence != run[k].sinks[m].log[j].1.sequence
  {
    RunInv(run, k);
    var s, log := run[k], run[k].sinks[m].log;
    assert SinkInv(s.sinks[m], s.lanes, m);
    var u, v := log[i].0, log[j].0;
    FromLaneAt(log, i);
    FromLaneAt(log, j);
    var x, y := |FromLane(log[..i], u)|, |FromLane(log[..j], v)|;
    QueuesAreOrdered(run, k, u, m);
    QueuesAreOrdered(run, k, v, m);
    assert s.lanes[u].outlets[m].accepted[x] == log[i].1 && s.lanes[v].outlets[m].accepted[y] == log[j].1;
    if u == v {
      FromLaneGrows(log, i, j, u);
    } else {
      var p := SubseqMember(s.lanes[u].outlets[m].accepted, s.lanes[u].source.accepted[..s.lanes[u].source.popped], x);
      var q := SubseqMember(s.lanes[v].outlets[m].accepted, s.lanes[v].source.accepted[..s.lanes[v].source.popped], y);
      assert Apart(Issued(s.lanes[u]), Issued(s.lanes[v]));
      assert Issued(s.lanes[u])[p] == log[i].1 && Issued(s.lanes[v])[q] == log[j].1;
    }
  }

  /** Monitor::stop has returned: the dispatchers have been joined, and then the workers. */
  predicate Stopped(s: Pipe) {
    DispatchersDone(s) && forall m :: 0 <= m < |s.sinks| ==> s.sinks[m].worker == Finished
  }

  /**
    Once everything has stopped, every event that a source queue accepted has been consumed exactly once, and offered to
    every sink; each sink has taken, in order, exactly what its queue accepted, and what it did not get was refused and
    counted; and every number ever given out belongs to an accepted or a refused event.
  */
  lemma NothingIsLeftBehind(run: seq<Pipe>, k: nat)
    requires Run(run) && k < |run| && Stopped(run[k])
    ensures var s := run[k];
            && (forall l :: 0 <= l < |s.lanes| ==>
                  && s.lanes[l].source.Empty() && s.lanes[l].consumed == |s.lanes[l].source.accepted|
                  && Accepted(s.lanes[l].outlets) + s.lanes[l].failures == |s.sinks| * |s.lanes[l].source.accepted|)
            && (forall l, m :: 0 <= l < |s.lanes| && 0 <= m < |s.sinks| ==>
                  && m < |s.lanes[l].outlets|
                  && FromLane(s.sinks[m].log, l) == s.lanes[l].outlets[m].accepted
                  && Subseq(FromLane(s.sinks[m].log, l), s.lanes[l].source.accepted)
                  && |FromLane(s.sinks[m].log, l)| + s.lanes[l].outlets[m].refused == |s.lanes[l].source.accepted|)
            && s.next == 1 + TakenByAll(s.lanes)
            && (forall l :: 0 <= l < |s.lanes| ==> Taken(s.lanes[l]) == s.lanes[l].source.Offered())
  {
    RunInv(run, k);
    var s := run[k];
    forall l | 0 <= l < |s.lanes|
      ensures && s.lanes[l].source.Empty() && s.lanes[l].consumed == |s.lanes[l].source.accepted|
              && Accepted(s.lanes[l].outlets) + s.lanes[l].failures == |s.sinks| * |s.lanes[l].source.accepted|
              && Taken(s.lanes[l]) == s.lanes[l].source.Offered()
    {
      FanOutConserves(run, k, l);
      assert LaneInv(s.lanes[l], s.next, s.publishing, |s.sinks|);
    }
    forall l, m | 0 <= l < |s.lanes| && 0 <= m < |s.sinks|
      ensures && m < |s.lanes[l].outlets|
              && FromLane(s.sinks[m].log, l) == s.lanes[l].outlets[m].accepted
              && Subseq(FromLane(s.sinks[m].log, l), s.lanes[l].source.accepted)
              && |FromLane(s.sinks[m].log, l)| + s.lanes[l].outlets[m].refused == |s.lanes[l].source.accepted|
    {
      SinkTookAll(s, l, m);
    }
  }

  lemma SinkTookAll(s: Pipe, l: nat, m: nat)
    requires Inv(s) && Stopped(s) && l < |s.lanes| && m < |s.sinks|
    ensures && m < |s.lanes[l].outlets|
            && FromLane(s.sinks[m].log, l) == s.lanes[l].outlets[m].accepted
            && Subseq(FromLane(s.sinks[m].log, l), s.lanes[l].source.accepted)
            && |FromLane(s.sinks[m].log, l)| + s.lanes[l].outlets[m].refused == |s.lanes[l].source.accepted|
  {
    var a := s.lanes[l];
    assert LaneInv(a, s.next, s.publishing, |s.sinks|);
    assert SinkInv(s.sinks[m], s.lanes, m);
    assert EmptyBelow(s.lanes, m, |s.lanes|);
    assert a.outlets[m].Empty();
    assert Selects(a.outlets[m], a.source.accepted, OfferedTo(a, m));
    assert a.source.accepted[..|a.source.accepted|] == a.source.accepted;
    hide FromLane, Subseq;
    assert a.outlets[m].accepted[..a.outlets[m].popped] == a.outlets[m].accepted;
  }
}
