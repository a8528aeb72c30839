/** Where every record is: what was popped, kept, acknowledged or is still pending. */
module SinkLedger {
  import opened Sequences
  import opened WalDisk

  datatype QueuedEvent = QueuedEvent(critical: bool, line: Line)

  /** One turn of the worker loop: what it pops, the time it reads, and the collector's answer, should it be asked. */
  datatype Round = Round(queues: seq<seq<QueuedEvent>>, nowMs: nat, answer: bool)

  function Popped(rounds: seq<Round>): nat {
    if rounds == [] then 0 else Popped(rounds[..|rounds| - 1]) + |Concat(rounds[|rounds| - 1].queues)|
  }

  lemma RoundMore(rounds: seq<Round>, r: nat)
    requires r < |rounds|
    ensures rounds[..r + 1] == rounds[..r] + [rounds[r]]
    ensures Popped(rounds[..r + 1]) == Popped(rounds[..r]) + |Concat(rounds[r].queues)|
  {
    assert rounds[..r + 1][..r] == rounds[..r];
  }

  datatype Outcome = Accepted | WriteError | Overflow

  datatype FlushOutcome = Idle | Refused | Retained | Retired

  // ---- Popped and kept ----

  function Lines(events: seq<QueuedEvent>): seq<Line> {
    if events == [] then [] else Lines(events[..|events| - 1]) + [events[|events| - 1].line]
  }

  function CriticalLines(events: seq<QueuedEvent>): seq<Line> {
    if events == [] then []
    else
      var last := events[|events| - 1];
      CriticalLines(events[..|events| - 1]) + (if last.critical then [last.line] else [])
  }

  /** The kept lines are some of the popped ones, in order, and without failing calls every critical one is kept. */
  ghost predicate Selection(kept: seq<Line>, events: seq<QueuedEvent>, clean: bool) {
    Subseq(kept, Lines(events)) && (clean ==> Subseq(CriticalLines(events), kept))
  }

  lemma SelectionEmpty()
    ensures Selection([], [], true) && Selection([], [], false)
  {
  }

  lemma SelectionWeaker(kept: seq<Line>, events: seq<QueuedEvent>, clean: bool)
    requires Selection(kept, events, true) || (!clean && Selection(kept, events, false))
    ensures Selection(kept, events, clean)
  {
  }

  lemma {:induction false} LinesAppend(a: seq<QueuedEvent>, b: seq<QueuedEvent>)
    ensures Lines(a + b) == Lines(a) + Lines(b) && CriticalLines(a + b) == CriticalLines(a) + CriticalLines(b)
  {
    if b == [] {
      assert a + b == a;
    } else {
      LinesAppend(a, b[..|b| - 1]);
      assert (a + b)[..|a + b| - 1] == a + b[..|b| - 1];
    }
  }

  lemma SelectionAppend(a: seq<Line>, events: seq<QueuedEvent>, clean: bool,
                        b: seq<Line>, more: seq<QueuedEvent>, clean': bool)
    requires Selection(a, events, clean) && Selection(b, more, clean')
    ensures Selection(a + b, events + more, clean && clean')
  {
    LinesAppend(events, more);
    SubseqAppend(a, Lines(events), b, Lines(more));
    if clean && clean' { SubseqAppend(CriticalLines(events), a, CriticalLines(more), b); }
  }

  lemma SelectionSnoc(kept: seq<Line>, events: seq<QueuedEvent>, event: QueuedEvent, outcome: Outcome, clean: bool)
    requires Selection(kept, events, true) || Selection(kept, events, false)
    requires clean ==> Selection(kept, events, true)
    requires outcome.WriteError? ==> !clean
    requires outcome.Overflow? ==> !event.critical
    ensures Selection(kept + (if outcome.Accepted? then [event.line] else []), events + [event], clean)
  {
    var more := if outcome.Accepted? then [event.line] else [];
    assert [event][..0] == [];
    assert Lines([event]) == [event.line];
    assert CriticalLines([event]) == if event.critical then [event.line] else [];
    SubseqRefl(more);
    SelectionAppend(kept, events, clean, more, [event], clean);
  }

  // ---- Accepted and acknowledged ----

  /** Nothing accepted is lost or reordered: loaded and accepted records are the acknowledged, then the pending ones. */
  ghost predicate Ledger(loaded: seq<Line>, accepted: seq<Line>, acked: seq<seq<Line>>, delivered: seq<seq<Line>>,
                         pending: seq<Line>) {
    loaded + accepted == Concat(acked) + pending && Subseq(acked, delivered)
  }

  lemma FreshLedger(pending: seq<Line>)
    ensures Ledger(pending, [], [], [], pending) && Concat<Line>([]) == []
  {
    assert pending + [] == pending;
  }

  lemma LedgerAccepts(loaded: seq<Line>, accepted: seq<Line>, acked: seq<seq<Line>>, delivered: seq<seq<Line>>,
                      pending: seq<Line>, line: Line)
    requires Ledger(loaded, accepted, acked, delivered, pending)
    ensures Ledger(loaded, accepted + [line], acked, delivered, pending + [line])
  {
    assert loaded + (accepted + [line]) == loaded + accepted + [line];
    assert Concat(acked) + (pending + [line]) == Concat(acked) + pending + [line];
  }

  lemma LedgerDelivers(loaded: seq<Line>, accepted: seq<Line>, acked: seq<seq<Line>>, delivered: seq<seq<Line>>,
                       pending: seq<Line>, batch: seq<Line>)
    requires Ledger(loaded, accepted, acked, delivered, pending)
    ensures Ledger(loaded, accepted, acked, delivered + [batch], pending)
    ensures |Concat(delivered + [batch])| == |Concat(delivered)| + |batch|
  {
    ConcatSnoc(delivered, batch);
    SubseqAppend(acked, delivered, [], [batch]);
    assert acked + [] == acked;
  }

  lemma LedgerRetires(loaded: seq<Line>, accepted: seq<Line>, acked: seq<seq<Line>>, delivered: seq<seq<Line>>,
                      pending: seq<Line>, n: nat)
    requires Ledger(loaded, accepted, acked, delivered, pending) && n <= |pending|
    ensures Ledger(loaded, accepted, acked + [pending[..n]], delivered + [pending[..n]], pending[n..])
  {
    ConcatSnoc(acked, pending[..n]);
    assert Concat(acked) + pending[..n] + pending[n..] == Concat(acked) + pending;
    SubseqRefl([pending[..n]]);
    SubseqAppend(acked, delivered, [pending[..n]], [pending[..n]]);
  }

  /** A selection of batches holds no more records than all of them. */
  lemma {:induction false} SelectionIsShorter(a: seq<seq<Line>>, b: seq<seq<Line>>)
    requires Subseq(a, b)
    ensures |Concat(a)| <= |Concat(b)|
    decreases |b|
  {
    if a != [] {
      var init := b[..|b| - 1];
      if a[|a| - 1] == b[|b| - 1] && Subseq(a[..|a| - 1], init) {
        SelectionIsShorter(a[..|a| - 1], init);
      } else {
        SelectionIsShorter(a, init);
      }
    }
  }
}
