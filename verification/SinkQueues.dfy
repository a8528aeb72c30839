/** How a sink takes from its input queues: round robin while it runs, queue after queue when it has been stopped. */
module SinkQueues {
  import opened Sequences
  import opened Events
  import opened SpscRing
  import opened JsonlSink

  // ---- Round robin ----

  /** The turns from `last` until queue q is asked again, among n queues. */
  function Turns(last: nat, q: nat, n: nat): (t: int)
    requires last < n && q < n
    ensures 1 <= t <= n
  {
    if q > last then q - last else q - last + n
  }

  function NextIndex(last: nat, n: nat): nat
    requires last < n
  {
    (last + 1) % n
  }

  lemma NextIndexIs(last: nat, n: nat)
    requires last < n
    ensures NextIndex(last, n) == if last + 1 == n then 0 else last + 1
  {
    if last + 1 == n { ModIs(n, 1, 0, n); } else { ModIs(last + 1, 0, last + 1, n); }
  }

  /** A queue that is not the one being served comes nearer: no waiting queue waits for more than n - 1 others. */
  lemma WaitingComesNearer(last: nat, served: nat, waiting: nat, n: nat)
    requires last < n && served < n && waiting < n && served != waiting
    requires Turns(last, served, n) < Turns(last, waiting, n)
    ensures Turns(served, waiting, n) == Turns(last, waiting, n) - Turns(last, served, n)
  {
  }

  ghost function Queues(queues: seq<SpscRingBuffer>): set<object> {
    (set i | 0 <= i < |queues| :: queues[i] as object) + (set i | 0 <= i < |queues| :: queues[i].buffer as object)
  }

  ghost predicate Separate(queues: seq<SpscRingBuffer>) {
    forall i, j :: 0 <= i < j < |queues| ==> queues[i] != queues[j] && queues[i].buffer != queues[j].buffer
  }

  ghost predicate AllValid(queues: seq<SpscRingBuffer>)
    reads Queues(queues)
  {
    forall i :: 0 <= i < |queues| ==> queues[i].Valid()
  }

  ghost function Waiting(queues: seq<SpscRingBuffer>): (w: seq<seq<Event>>)
    reads Queues(queues)
    requires AllValid(queues)
    ensures |w| == |queues| && forall i :: 0 <= i < |queues| ==> w[i] == queues[i].Queued()
  {
    seq(|queues|, i requires 0 <= i < |queues| && AllValid(queues) reads Queues(queues) => queues[i].Queued())
  }

  /** A pop from one queue leaves the others as they were. */
  method PopFrom(queues: seq<SpscRingBuffer>, k: nat) returns (ok: bool, e: Event)
    requires k < |queues| && Separate(queues) && AllValid(queues)
    modifies queues[k]
    ensures AllValid(queues) && (ok <==> old(Waiting(queues)[k]) != [])
    ensures if ok then e == old(Waiting(queues)[k])[0]
                       && Waiting(queues) == old(Waiting(queues))[k := old(Waiting(queues)[k])[1..]]
            else Waiting(queues) == old(Waiting(queues))
  {
    hide SpscRingBuffer.Valid, Waiting;
    assert forall i :: 0 <= i < |queues| && i != k ==> queues[i] != queues[k] && queues[i].buffer != queues[k].buffer;
    ok, e := queues[k].Pop();
    assert AllValid(queues);
    assert forall i :: 0 <= i < |queues| && i != k ==> Waiting(queues)[i] == old(Waiting(queues)[i]);
  }

  /** The queues that come within `turns` turns after `last` are empty. */
  ghost predicate EmptyUpTo(waiting: seq<seq<Event>>, last: nat, turns: int) {
    forall q :: 0 <= q < |waiting| && last < |waiting| && Turns(last, q, |waiting|) <= turns ==> waiting[q] == []
  }

  lemma NextTurn(last: nat, i: nat, index: nat, n: nat)
    requires last < n && i < n && index == if last + i < n then last + i else last + i - n
    ensures var next := NextIndex(index, n);
            && next == (if last + i + 1 < n then last + i + 1 else last + i + 1 - n) && next < n
            && Turns(last, next, n) == i + 1
  {
    NextIndexIs(index, n);
    hide NextIndex;
  }

  lemma AskedOneMore(waiting: seq<seq<Event>>, last: nat, i: nat, index: nat)
    requires last < |waiting| && index < |waiting| && Turns(last, index, |waiting|) == i + 1 && waiting[index] == []
    requires EmptyUpTo(waiting, last, i)
    ensures EmptyUpTo(waiting, last, i + 1)
  {
  }

  /** One turn has served queue `index`, and those that come before it were empty. */
  ghost predicate Took(waiting: seq<seq<Event>>, last: nat, index: nat) {
    && last < |waiting| && index < |waiting| && waiting[index] != []
    && EmptyUpTo(waiting, last, Turns(last, index, |waiting|) - 1)
  }

  lemma TookIndex(waiting: seq<seq<Event>>, last: nat, i: nat, index: nat)
    requires last < |waiting| && index < |waiting| && Turns(last, index, |waiting|) == i + 1 && waiting[index] != []
    requires EmptyUpTo(waiting, last, i)
    ensures Took(waiting, last, index)
  {
  }

  /** One turn of run's loop: the first queue after `last`, round the ring, that has something. */
  method TakeNext(queues: seq<SpscRingBuffer>, last: nat) returns (ok: bool, index: nat, e: Event)
    requires Separate(queues) && AllValid(queues) && (last < |queues| || last == 0)
    modifies Queues(queues)
    ensures AllValid(queues) && (index < |queues| || index == 0)
    ensures ok ==> && index < |queues| && last < |queues| && old(Waiting(queues)[index]) != []
                   && e == old(Waiting(queues)[index])[0]
                   && Waiting(queues) == old(Waiting(queues))[index := old(Waiting(queues)[index])[1..]]
                   && Took(old(Waiting(queues)), last, index)
    ensures !ok ==> index == last && Waiting(queues) == old(Waiting(queues))
                    && EmptyUpTo(old(Waiting(queues)), last, |queues|)
  {
    ghost var before := Waiting(queues);
    var n := |queues|;
    index, ok, e := last, false, Event(0, Info);
    hide AllValid, Waiting, Separate, Queues, Turns, NextIndex;
    var i := 0;
    while i < n
      invariant 0 <= i <= n && (last < n || n == 0)
      invariant index == if last + i < n || n == 0 then last + i else last + i - n
      invariant AllValid(queues) && Waiting(queues) == before
      invariant EmptyUpTo(before, last, i)
    {
      NextTurn(last, i, index, n);
      index := NextIndex(index, n);
      assert queues[index] in Queues(queues) by { InQueues(queues, index); }
      ok, e := PopFrom(queues, index);
      if ok {
        TookIndex(before, last, i, index);
        return;
      }
      AskedOneMore(before, last, i, index);
      i := i + 1;
    }
  }

  lemma InQueues(queues: seq<SpscRingBuffer>, k: nat)
    requires k < |queues|
    ensures queues[k] in Queues(queues)
  {
  }

  /** What was queued when a turn began, whatever has been pushed since the last one, and the queue it served. */
  datatype Turn = Turn(waiting: seq<seq<Event>>, index: nat)

  /** Consecutive turns on n queues. */
  ghost predicate Consecutive(turns: seq<Turn>, last: nat, n: nat) {
    turns != [] ==>
      && |turns[0].waiting| == n && Took(turns[0].waiting, last, turns[0].index)
      && Consecutive(turns[1..], turns[0].index, n)
  }

  /** A queue that keeps having something is served before its turn is over: within n consecutive turns. */
  lemma {:induction false} ServedInTime(turns: seq<Turn>, last: nat, q: nat, n: nat) returns (t: nat)
    requires last < n && q < n && Consecutive(turns, last, n) && |turns| >= Turns(last, q, n)
    requires forall i :: 0 <= i < |turns| ==> q < |turns[i].waiting| && turns[i].waiting[q] != []
    ensures t < Turns(last, q, n) <= n && turns[t].index == q
    decreases |turns|
  {
    var first := turns[0];
    if first.index == q { return 0; }
    assert Turns(last, first.index, n) < Turns(last, q, n);
    WaitingComesNearer(last, first.index, q, n);
    assert forall i :: 0 <= i < |turns[1..]| ==> turns[1..][i] == turns[i + 1];
    t := ServedInTime(turns[1..], first.index, q, n);
    t := t + 1;
  }

  /** What has been written since is a selection, in order, of what was taken. */
  ghost predicate Grew(was: seq<Event>, written: seq<Event>, taken: seq<Event>) {
    was <= written && Subseq(written[|was|..], taken)
  }

  lemma GrewOne(was: seq<Event>, written: seq<Event>, taken: seq<Event>, e: Event, ok: bool)
    requires Grew(was, written, taken)
    ensures Grew(was, written + (if ok then [e] else []), taken + [e])
  {
    SubseqRefl([e]);
    var last := if ok then [e] else [];
    assert (written + last)[|written|..] == last;
    GrewMore(was, written, taken, written + last, [e]);
  }

  lemma GrewMore(was: seq<Event>, written: seq<Event>, taken: seq<Event>, later: seq<Event>, more: seq<Event>)
    requires Grew(was, written, taken) && Grew(written, later, more)
    ensures Grew(was, later, taken + more)
  {
    SubseqAppend(written[|was|..], taken, later[|written|..], more);
    assert later[|was|..] == written[|was|..] + later[|written|..];
  }

  /** One turn of drain_queues's innermost loop; the answers come by the number of events and errors counted before. */
  method MoveOne(queues: seq<SpscRingBuffer>, k: nat, sink: JsonlEventSink, answers: nat -> Answers)
    returns (more: bool, e: Event)
    requires k < |queues| && Separate(queues) && AllValid(queues) && sink.Valid()
    modifies queues[k], sink
    ensures AllValid(queues) && sink.Valid()
    ensures more <==> old(Waiting(queues)[k]) != []
    ensures Moved(old(Waiting(queues)), Waiting(queues), k, if more then [e] else [])
    ensures sink.handed == old(sink.handed) + (if more then 1 else 0)
    ensures Grew(old(sink.written), sink.written, if more then [e] else [])
  {
    assert sink !in Queues(queues) && queues[k] in Queues(queues);
    assert sink.written + [] == sink.written;
    ghost var before, written := Waiting(queues), sink.written;
    hide *;
    more, e := PopFrom(queues, k);
    MovesOne(before, k, more, e);
    if more {
      ghost var after := Waiting(queues);
      var ok := sink.WriteEvent(e, answers(sink.writtenEvents + sink.writeErrors));
      assert AllValid(queues) && Waiting(queues) == after;
      GrewOne(written, written, [], e, ok);
    } else {
      GrewNone(written);
    }
  }

  /** Queue k has lost these events from its front, and the others nothing. */
  ghost predicate Moved(before: seq<seq<Event>>, after: seq<seq<Event>>, k: nat, taken: seq<Event>) {
    k < |before| == |after| && before == after[k := taken + after[k]]
  }

  lemma MovesOne(before: seq<seq<Event>>, k: nat, more: bool, e: Event)
    requires k < |before| && (more ==> before[k] != [] && e == before[k][0])
    ensures if more then Moved(before, before[k := before[k][1..]], k, [e]) else Moved(before, before, k, [])
  {
    if more { assert [e] + before[k][1..] == before[k]; } else { assert [] + before[k] == before[k]; }
  }

  lemma GrewNone(written: seq<Event>)
    ensures Grew(written, written, [])
  {
  }

  lemma MovedOn(a: seq<seq<Event>>, b: seq<seq<Event>>, c: seq<seq<Event>>, k: nat, first: seq<Event>,
                second: seq<Event>)
    requires Moved(a, b, k, first) && Moved(b, c, k, second)
    ensures Moved(a, c, k, first + second)
  {
    assert a[k] == first + b[k] && b[k] == second + c[k];
    assert first + second + c[k] == a[k];
  }

  lemma NotMoved(a: seq<seq<Event>>, k: nat)
    requires k < |a|
    ensures Moved(a, a, k, [])
  {
    assert [] + a[k] == a[k];
  }

  /** Empties one queue into the sink, in order. */
  method DrainOne(queues: seq<SpscRingBuffer>, k: nat, sink: JsonlEventSink, answers: nat -> Answers)
    returns (drained: bool, ghost taken: seq<Event>)
    requires k < |queues| && Separate(queues) && AllValid(queues) && sink.Valid()
    modifies queues[k], sink
    ensures AllValid(queues) && sink.Valid()
    ensures Moved(old(Waiting(queues)), Waiting(queues), k, taken) && Waiting(queues)[k] == []
    ensures drained <==> taken != []
    ensures sink.handed == old(sink.handed) + |taken| && Grew(old(sink.written), sink.written, taken)
  {
    ghost var before, was := Waiting(queues), sink.written;
    NotMoved(before, k);
    GrewNone(was);
    hide *;
    taken, drained := [], false;
    var more := true;
    while more
      invariant AllValid(queues) && sink.Valid() && |Waiting(queues)| == |queues|
      invariant Moved(before, Waiting(queues), k, taken)
      invariant sink.handed == old(sink.handed) + |taken| && Grew(was, sink.written, taken)
      invariant drained <==> taken != []
      invariant !more ==> Waiting(queues)[k] == []
      decreases |Waiting(queues)[k]|, more
    {
      ghost var middle, written := Waiting(queues), sink.written;
      var e;
      more, e := MoveOne(queues, k, sink, answers);
      if more { drained := true; }
      ghost var last := if more then [e] else [];
      MovedShrinks(middle, Waiting(queues), k, last);
      MovedOn(before, middle, Waiting(queues), k, taken, last);
      GrewMore(was, written, taken, sink.written, last);
      taken := taken + last;
    }
  }

  lemma MovedShrinks(a: seq<seq<Event>>, b: seq<seq<Event>>, k: nat, taken: seq<Event>)
    requires Moved(a, b, k, taken)
    ensures |a[k]| == |taken| + |b[k]|
    ensures taken == [] ==> a[k] == b[k]
  {
    assert a[k] == taken + b[k];
    if taken == [] { assert [] + b[k] == b[k]; }
  }

  /** The first k queues are empty, and the others as they were. */
  ghost predicate Passed(before: seq<seq<Event>>, after: seq<seq<Event>>, k: nat) {
    && |after| == |before| && k <= |before|
    && (forall i :: 0 <= i < k ==> after[i] == [])
    && forall i :: k <= i < |before| ==> after[i] == before[i]
  }

  lemma PassedOne(before: seq<seq<Event>>, middle: seq<seq<Event>>, after: seq<seq<Event>>, k: nat, taken: seq<Event>)
    requires Passed(before, middle, k) && Moved(middle, after, k, taken) && after[k] == []
    ensures Passed(before, after, k + 1) && Concat(before[..k + 1]) == Concat(before[..k]) + taken
  {
    assert taken + [] == taken;
    assert middle[k] == taken;
    assert before[..k + 1] == before[..k] + [before[k]];
    ConcatSnoc(before[..k], before[k]);
    forall i | 0 <= i < |before| && i != k ensures after[i] == middle[i] {}
  }

  /** One round of drain_queues: queue after queue, each until it is empty. */
  method DrainRound(queues: seq<SpscRingBuffer>, sink: JsonlEventSink, answers: nat -> Answers)
    returns (drained: bool, ghost taken: seq<Event>)
    requires Separate(queues) && AllValid(queues) && sink.Valid()
    modifies Queues(queues), sink
    ensures AllValid(queues) && sink.Valid()
    ensures Passed(old(Waiting(queues)), Waiting(queues), |queues|) && taken == Concat(old(Waiting(queues)))
    ensures drained <==> taken != []
    ensures sink.handed == old(sink.handed) + |taken| && Grew(old(sink.written), sink.written, taken)
  {
    ghost var before, was := Waiting(queues), sink.written;
    assert Passed(before, before, 0) && before[..0] == [] && Concat(before[..0]) == [];
    GrewNone(was);
    taken, drained := [], false;
    hide *;
    var k := 0;
    while k < |queues|
      invariant 0 <= k <= |queues| == |before| && AllValid(queues) && sink.Valid()
      invariant Passed(before, Waiting(queues), k) && taken == Concat(before[..k])
      invariant drained <==> taken != []
      invariant sink.handed == old(sink.handed) + |taken| && Grew(was, sink.written, taken)
    {
      ghost var middle, written := Waiting(queues), sink.written;
      InQueues(queues, k);
      var any;
      ghost var more;
      any, more := DrainOne(queues, k, sink, answers);
      if any { drained := true; }
      RoundOne(before, middle, Waiting(queues), k, taken, more, was, written, sink.written);
      taken := taken + more;
      k := k + 1;
    }
    assert before[..k] == before;
  }

  /** One queue of a round more. */
  lemma RoundOne(before: seq<seq<Event>>, middle: seq<seq<Event>>, after: seq<seq<Event>>, k: nat, taken: seq<Event>,
                 more: seq<Event>, was: seq<Event>, written: seq<Event>, later: seq<Event>)
    requires Passed(before, middle, k) && Moved(middle, after, k, more) && after[k] == []
    requires k < |before| && taken == Concat(before[..k]) && Grew(was, written, taken) && Grew(written, later, more)
    ensures Passed(before, after, k + 1) && taken + more == Concat(before[..k + 1]) && Grew(was, later, taken + more)
    ensures taken + more != [] <==> taken != [] || more != []
  {
    hide Passed, Moved, Concat, Grew;
    PassedOne(before, middle, after, k, more);
    GrewMore(was, written, taken, later, more);
  }

  ghost predicate AllEmpty(waiting: seq<seq<Event>>) {
    forall i :: 0 <= i < |waiting| ==> waiting[i] == []
  }

  lemma {:induction false} ConcatOfEmpty(waiting: seq<seq<Event>>)
    requires AllEmpty(waiting)
    ensures Concat(waiting) == []
  {
    if waiting != [] { ConcatOfEmpty(waiting[..|waiting| - 1]); }
  }

  /**
    drain_queues: rounds until one finds nothing. With nobody pushing any more the first round takes everything, in
    order, every event of it is handed to the sink once, and the second round finds nothing.
  */
  method DrainQueues(queues: seq<SpscRingBuffer>, sink: JsonlEventSink, answers: nat -> Answers)
    returns (ghost taken: seq<Event>)
    requires Separate(queues) && AllValid(queues) && sink.Valid()
    modifies Queues(queues), sink
    ensures AllValid(queues) && sink.Valid()
    ensures AllEmpty(Waiting(queues)) && taken == Concat(old(Waiting(queues)))
    ensures sink.handed == old(sink.handed) + |taken| && Grew(old(sink.written), sink.written, taken)
  {
    ghost var was := sink.written;
    var drained;
    drained, taken := DrainRound(queues, sink, answers);
    assert AllEmpty(Waiting(queues));
    hide *;
    while drained
      invariant AllValid(queues) && sink.Valid() && AllEmpty(Waiting(queues))
      invariant sink.handed == old(sink.handed) + |taken| && Grew(was, sink.written, taken)
      decreases drained
    {
      ghost var written := sink.written;
      ConcatOfEmpty(Waiting(queues));
      ghost var more;
      drained, more := DrainAgain(queues, sink, answers);
      GrewMore(was, written, taken, sink.written, more);
      assert taken + more == taken;
    }
  }

  /** A round over empty queues. */
  method DrainAgain(queues: seq<SpscRingBuffer>, sink: JsonlEventSink, answers: nat -> Answers)
    returns (drained: bool, ghost taken: seq<Event>)
    requires Separate(queues) && AllValid(queues) && sink.Valid() && AllEmpty(Waiting(queues))
    modifies Queues(queues), sink
    ensures AllValid(queues) && sink.Valid() && AllEmpty(Waiting(queues))
    ensures !drained && taken == []
    ensures sink.handed == old(sink.handed) && Grew(old(sink.written), sink.written, taken)
  {
    ConcatOfEmpty(Waiting(queues));
    hide Concat, Grew;
    drained, taken := DrainRound(queues, sink, answers);
  }
}
