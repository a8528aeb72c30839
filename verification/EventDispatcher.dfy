/** The dispatcher as it runs alone on its queues: one source, one queue of each sink. */
module EventDispatcher {
  import opened Sequences
  import opened Events
  import opened SpscRing

  /** A queue as its dispatcher sees it. */
  datatype View = View(config: RingConfig, accepted: seq<Event>, popped: seq<Event>, refused: nat) {
    predicate Valid() { popped <= accepted }

    /** The push of one event: taken when the queue has room for its level, counted as refused otherwise. */
    function Offer(e: Event): View {
      if Valid() && Takes(config, e.level, |accepted| - |popped|) then this.(accepted := accepted + [e])
      else this.(refused := refused + 1)
    }
  }

  /** The first k queues have been offered the event. */
  function OfferFirst(views: seq<View>, e: Event, k: nat): (after: seq<View>)
    requires k <= |views|
    ensures |after| == |views|
  {
    seq(|views|, m requires 0 <= m < |views| => if m < k then views[m].Offer(e) else views[m])
  }

  lemma OfferNext(views: seq<View>, e: Event, k: nat)
    requires k < |views|
    ensures OfferFirst(views, e, k + 1) == OfferFirst(views, e, k)[k := OfferFirst(views, e, k)[k].Offer(e)]
    ensures Lost(OfferFirst(views, e, k + 1))
            == Lost(OfferFirst(views, e, k))
               + OfferFirst(views, e, k)[k].Offer(e).refused - OfferFirst(views, e, k)[k].refused
  {
    assert OfferFirst(views, e, k + 1) == OfferFirst(views, e, k)[k := OfferFirst(views, e, k)[k].Offer(e)];
    LostUpdate(OfferFirst(views, e, k), k, OfferFirst(views, e, k)[k].Offer(e));
  }

  lemma {:induction false} LostUpdate(views: seq<View>, k: nat, v: View)
    requires k < |views|
    ensures Lost(views[k := v]) == Lost(views) - views[k].refused + v.refused
  {
    var n := |views| - 1;
    if k < n {
      LostUpdate(views[..n], k, v);
      assert views[k := v][..n] == views[..n][k := v];
    } else {
      assert views[k := v][..n] == views[..n];
    }
  }

  function Lost(views: seq<View>): nat {
    if views == [] then 0 else Lost(views[..|views| - 1]) + views[|views| - 1].refused
  }

  // ---- What dispatching a stretch of events does ----

  /** Everything a dispatcher changes. */
  datatype Progress = Progress(popped: seq<Event>, consumed: nat, failures: int, views: seq<View>)

  /** The queue got a selection of the events, in order, and refused the others. */
  ghost predicate Fanned(a: View, b: View, events: seq<Event>) {
    && b.config == a.config && b.popped == a.popped && a.accepted <= b.accepted
    && Subseq(b.accepted[|a.accepted|..], events)
    && |b.accepted| + b.refused == |a.accepted| + a.refused + |events|
  }

  /** From a to b the dispatcher has taken some events and offered each of them once to every queue. */
  ghost predicate Moved(a: Progress, b: Progress) {
    && a.popped <= b.popped
    && var events := b.popped[|a.popped|..];
    && b.consumed == a.consumed + |events|
    && |a.views| == |b.views| && b.failures + Lost(a.views) == a.failures + Lost(b.views)
    && forall m :: 0 <= m < |a.views| ==> Fanned(a.views[m], b.views[m], events)
  }

  lemma NotMoved(a: Progress)
    ensures Moved(a, a)
  {
  }

  /** One turn: the oldest event of the source, if there is one, is offered to every queue. */
  function Polled(p: Progress, accepted: seq<Event>): Progress
    requires p.popped <= accepted
  {
    if p.popped == accepted then p
    else
      var e := accepted[|p.popped|];
      var views := OfferFirst(p.views, e, |p.views|);
      Progress(p.popped + [e], p.consumed + 1, p.failures + Lost(views) - Lost(p.views), views)
  }

  lemma PolledOne(p: Progress, q: Progress, accepted: seq<Event>, e: Event)
    requires p.popped != accepted && q.popped == p.popped + [e] && q.popped <= accepted
    requires q.consumed == p.consumed + 1 && q.views == OfferFirst(p.views, e, |p.views|)
    requires q.failures + Lost(p.views) == p.failures + Lost(q.views)
    ensures p.popped <= accepted && q == Polled(p, accepted)
  {
    assert q.popped[|p.popped|] == accepted[|p.popped|];
  }

  lemma PolledNone(p: Progress)
    ensures Polled(p, p.popped) == p && p.(popped := p.popped + []) == p
  {
  }

  /** Turn after turn until the source is empty. */
  function Drained(p: Progress, accepted: seq<Event>): Progress
    requires p.popped <= accepted
    decreases |accepted| - |p.popped|
  {
    if p.popped == accepted then p else Drained(Polled(p, accepted), accepted)
  }

  lemma PolledMoves(p: Progress, accepted: seq<Event>)
    requires p.popped <= accepted
    ensures Moved(p, Polled(p, accepted)) && Polled(p, accepted).popped <= accepted
  {
    if p.popped == accepted {
      NotMoved(p);
    } else {
      var e, b := accepted[|p.popped|], Polled(p, accepted);
      assert b.popped[|p.popped|..] == [e];
      hide Lost;
      forall m | 0 <= m < |p.views| ensures Fanned(p.views[m], b.views[m], [e]) { OfferFans(p.views[m], e); }
    }
  }

  /** A drain takes everything, and every queue gets a selection of it, in order; what it does not get is counted. */
  lemma {:induction false} DrainedMoves(p: Progress, accepted: seq<Event>)
    requires p.popped <= accepted
    ensures Moved(p, Drained(p, accepted)) && Drained(p, accepted).popped == accepted
    decreases |accepted| - |p.popped|
  {
    if p.popped == accepted {
      NotMoved(p);
    } else {
      PolledMoves(p, accepted);
      DrainedMoves(Polled(p, accepted), accepted);
      MovedOn(p, Polled(p, accepted), Drained(p, accepted));
      hide Moved, Polled;
    }
  }

  lemma DrainedAfterPoll(p: Progress, accepted: seq<Event>)
    requires p.popped <= accepted
    ensures Polled(p, accepted).popped <= accepted
    ensures Drained(Polled(p, accepted), accepted) == Drained(p, accepted)
    ensures p.popped != accepted ==> |p.popped| < |Polled(p, accepted).popped| <= |accepted|
    ensures p.popped == accepted ==> Drained(p, accepted) == p
  {
    PolledMoves(p, accepted);
  }

  lemma OfferFans(v: View, e: Event)
    ensures Fanned(v, v.Offer(e), [e])
  {
    SubseqRefl([e]);
    var w := v.Offer(e);
    assert w.accepted[|v.accepted|..] == if w.accepted == v.accepted then [] else [e];
  }

  lemma FannedOn(a: View, b: View, c: View, first: seq<Event>, second: seq<Event>)
    requires Fanned(a, b, first) && Fanned(b, c, second)
    ensures Fanned(a, c, first + second)
  {
    SubseqAppend(b.accepted[|a.accepted|..], first, c.accepted[|b.accepted|..], second);
    assert c.accepted[|a.accepted|..] == b.accepted[|a.accepted|..] + c.accepted[|b.accepted|..];
  }

  lemma MovedOn(a: Progress, b: Progress, c: Progress)
    requires Moved(a, b) && Moved(b, c)
    ensures Moved(a, c)
  {
    var first, second := b.popped[|a.popped|..], c.popped[|b.popped|..];
    assert c.popped[|a.popped|..] == first + second;
    forall m | 0 <= m < |a.views| ensures Fanned(a.views[m], c.views[m], first + second) {
      FannedOn(a.views[m], b.views[m], c.views[m], first, second);
    }
    hide Fanned, Lost;
  }

  lemma QueueLength(q: SpscRingBuffer)
    requires q.Valid()
    ensures q.popped <= q.accepted && |q.Queued()| == |q.accepted| - |q.popped|
  {
  }

  class EventDispatcher {
    const source: SpscRingBuffer
    const sinks: seq<SpscRingBuffer>
    var consumed: nat
    var failures: nat

    /** The queues are separate from each other. */
    ghost predicate Separate() {
      && source !in sinks
      && (forall i, j :: 0 <= i < j < |sinks| ==> sinks[i] != sinks[j] && sinks[i].buffer != sinks[j].buffer)
      && (forall i :: 0 <= i < |sinks| ==> sinks[i].buffer != source.buffer)
    }

    /** The memory of the sinks' queues. */
    ghost function Outlets(): set<object> {
      (set i | 0 <= i < |sinks| :: sinks[i] as object) + (set i | 0 <= i < |sinks| :: sinks[i].buffer as object)
    }

    ghost predicate SinksValid()
      reads Outlets()
    {
      forall i :: 0 <= i < |sinks| ==> sinks[i].Valid()
    }

    ghost function Views(): (v: seq<View>)
      reads Outlets()
      ensures |v| == |sinks|
      ensures forall i :: 0 <= i < |sinks| ==>
                v[i] == View(sinks[i].config, sinks[i].accepted, sinks[i].popped, sinks[i].pushFailCount)
    {
      seq(|sinks|, i requires 0 <= i < |sinks| reads Outlets() =>
        View(sinks[i].config, sinks[i].accepted, sinks[i].popped, sinks[i].pushFailCount))
    }

    constructor (source: SpscRingBuffer, sinks: seq<SpscRingBuffer>)
      ensures this.source == source && this.sinks == sinks && consumed == 0 && failures == 0
    {
      this.source, this.sinks, consumed, failures := source, sinks, 0, 0;
    }

    /** One push of dispatch's loop. */
    method OfferTo(k: nat, event: Event)
      requires k < |sinks| && Separate() && SinksValid()
      modifies this`failures, Outlets()
      ensures SinksValid() && Views() == old(Views())[k := old(Views()[k]).Offer(event)]
      ensures failures == old(failures) + old(Views()[k]).Offer(event).refused - old(Views()[k]).refused
    {
      hide SpscRingBuffer.Valid, Views, Reserve, RejectsForReserve, Takes;
      assert forall i :: 0 <= i < |sinks| && i != k ==> sinks[i] != sinks[k] && sinks[i].buffer != sinks[k].buffer;
      QueueLength(sinks[k]);
      var ok := sinks[k].Push(event);
      if !ok { failures := failures + 1; }
      forall i | 0 <= i < |sinks| && i != k ensures sinks[i].Valid() && Views()[i] == old(Views()[i]) {
        assert sinks[i] != sinks[k];
      }
      assert Views()[k] == old(Views()[k]).Offer(event);
    }

    /** dispatch: every sink's queue is offered the event once, whatever the others did with it. */
    method Dispatch(event: Event)
      requires Separate() && SinksValid()
      modifies this`consumed, this`failures, Outlets()
      ensures SinksValid() && consumed == old(consumed) + 1
      ensures Views() == OfferFirst(old(Views()), event, |sinks|)
      ensures failures + Lost(old(Views())) == old(failures) + Lost(Views())
    {
      ghost var before := Views();
      assert OfferFirst(before, event, 0) == before && this !in Outlets();
      hide *;
      consumed := consumed + 1;
      var k := 0;
      while k < |sinks|
        invariant 0 <= k <= |sinks| == |before| && SinksValid() && consumed == old(consumed) + 1
        invariant Views() == OfferFirst(before, event, k)
        invariant failures + Lost(before) == old(failures) + Lost(OfferFirst(before, event, k))
      {
        OfferNext(before, event, k);
        OfferTo(k, event);
        k := k + 1;
      }
    }

    ghost function State(): Progress
      reads this, source, Outlets()
    {
      Progress(source.popped, consumed, failures, Views())
    }

    ghost predicate Valid()
      reads this, source, source.buffer, Outlets()
    {
      Separate() && source.Valid() && SinksValid()
    }

    /** The pop of one turn. */
    method Take() returns (got: bool, e: Event)
      requires Valid()
      modifies source`tail, source`popped
      ensures Valid() && source.accepted == old(source.accepted) && Views() == old(Views())
      ensures got <==> old(source.popped) != source.accepted
      ensures source.popped == old(source.popped) + (if got then [e] else [])
    {
      assert source !in Outlets() && source.buffer !in Outlets();
      hide Views, Outlets, Separate, SinksValid;
      got, e := source.Pop();
    }

    /** One turn of the loops: pop, and dispatch what came. */
    method Poll() returns (got: bool)
      requires Valid()
      modifies this`consumed, this`failures, source`tail, source`popped, Outlets()
      ensures Valid() && source.accepted == old(source.accepted) && old(State()).popped <= source.accepted
      ensures State() == Polled(old(State()), source.accepted) && (got <==> old(State()).popped != source.accepted)
    {
      assert this !in Outlets() && source !in Outlets() && source.buffer !in Outlets() && |Views()| == |sinks|;
      QueueLength(source);
      ghost var a := State();
      hide SpscRingBuffer.Valid, Views, Outlets, Separate, SinksValid, Lost, OfferFirst, View.Offer, Takes, Polled;
      var e;
      got, e := Take();
      QueueLength(source);
      if got {
        Dispatch(e);
        PolledOne(a, State(), source.accepted, e);
      } else {
        PolledNone(a);
      }
    }

    /** drain_source. */
    method DrainSource()
      requires Valid()
      modifies this`consumed, this`failures, source`tail, source`popped, Outlets()
      ensures Valid() && source.accepted == old(source.accepted) && old(State()).popped <= source.accepted
      ensures State() == Drained(old(State()), source.accepted)
    {
      ghost var a, accepted := State(), source.accepted;
      assert this !in Outlets() && source !in Outlets();
      QueueLength(source);
      hide SpscRingBuffer.Valid, Views, Outlets, Separate, SinksValid, Polled, Drained;
      var got := true;
      while got
        invariant Valid() && source.accepted == accepted && a.popped <= accepted && State().popped <= accepted
        invariant Drained(State(), accepted) == Drained(a, accepted)
        invariant !got ==> State().popped == accepted
        decreases |accepted| - |State().popped|, got
      {
        DrainedAfterPoll(State(), accepted);
        got := Poll();
      }
      DrainedAfterPoll(State(), accepted);
    }

    /** run: it polls until it sees the stop flag, and then drains; nobody pushes meanwhile. */
    method Run(polls: nat)
      requires Valid()
      modifies this`consumed, this`failures, source`tail, source`popped, Outlets()
      ensures Valid() && source.accepted == old(source.accepted) && old(State()).popped <= source.accepted
      ensures State() == Drained(old(State()), source.accepted)
    {
      ghost var a, accepted := State(), source.accepted;
      assert this !in Outlets() && source !in Outlets();
      QueueLength(source);
      hide SpscRingBuffer.Valid, Views, Outlets, Separate, SinksValid, Polled, Drained;
      for i := 0 to polls
        invariant Valid() && source.accepted == accepted && a.popped <= accepted && State().popped <= accepted
        invariant Drained(State(), accepted) == Drained(a, accepted)
      {
        DrainedAfterPoll(State(), accepted);
        var got := Poll();
      }
      DrainSource();
    }
  }
}
