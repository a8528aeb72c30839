/** Whole runs of the network sink, replayed from the collector's answers. */
module SinkRuns {
  import opened Sequences
  import opened WalDisk
  import opened WalFilesystem
  import opened WalGeneration
  import opened SinkLedger
  import opened Backoff

  /** What the sink has in memory, and what it has handed over. */
  datatype Book = Book(pending: seq<Line>, accepted: seq<Line>, delivered: seq<seq<Line>>, acked: seq<seq<Line>>,
                       sendErrors: nat)

  function Drained(b: Book, kept: seq<Line>): Book {
    b.(pending := b.pending + kept, accepted := b.accepted + kept)
  }

  /** One flush_pending: the answer decides whether the batch is delivered, and `ok` whether it is retired too. */
  function Flushed(b: Book, batchSize: nat, answer: bool, ok: bool): Book {
    var n := Min(|b.pending|, batchSize);
    var batch := b.pending[..n];
    if n == 0 then b
    else if !answer then b.(sendErrors := b.sendErrors + 1)
    else if !ok then b.(delivered := b.delivered + [batch])
    else b.(delivered := b.delivered + [batch], acked := b.acked + [batch], pending := b.pending[n..])
  }

  /** How the flush can end: an empty batch is a success, a refused one a failure, and a delivered one either. */
  predicate CanEnd(b: Book, batchSize: nat, answer: bool, ok: bool, clean: bool) {
    var n := Min(|b.pending|, batchSize);
    if n == 0 then ok else (!answer ==> !ok) && (clean && answer ==> ok)
  }

  lemma CanEndWeaker(b: Book, batchSize: nat, answer: bool, ok: bool, clean: bool)
    requires CanEnd(b, batchSize, answer, ok, true) || (!clean && CanEnd(b, batchSize, answer, ok, false))
    ensures CanEnd(b, batchSize, answer, ok, clean)
  {
  }

  /** What flush_pending reports is what Flushed says. */
  lemma FlushedIs(b: Book, batchSize: nat, answer: bool, ok: bool, outcome: FlushOutcome, a: Book, clean: bool)
    requires var n := Min(|b.pending|, batchSize);
             var batch := b.pending[..n];
             && (outcome.Idle? <==> n == 0) && (outcome.Refused? <==> n != 0 && !answer)
             && (ok <==> outcome.Idle? || outcome.Retired?) && (outcome.Retained? ==> !clean)
             && a.sendErrors == b.sendErrors + (if outcome.Refused? then 1 else 0)
             && a.delivered == b.delivered + (if outcome.Retired? || outcome.Retained? then [batch] else [])
             && a.acked == b.acked + (if outcome.Retired? then [batch] else [])
             && a.pending == (if outcome.Retired? then b.pending[n..] else b.pending) && a.accepted == b.accepted
    ensures a == Flushed(b, batchSize, answer, ok) && CanEnd(b, batchSize, answer, ok, clean)
  {
  }

  // ---- The worker loop ----

  /** One round: what was popped, which of it was kept, and whether and how the sink flushed. */
  datatype Step = Step(round: Round, kept: seq<Line>, turn: Turn)

  function AfterStep(b: Book, batchSize: nat, s: Step): Book {
    match s.turn.flushed
    case None => Drained(b, s.kept)
    case Some(ok) => Flushed(Drained(b, s.kept), batchSize, s.round.answer, ok)
  }

  function After(b: Book, batchSize: nat, steps: seq<Step>): Book {
    if steps == [] then b
    else AfterStep(After(b, batchSize, steps[..|steps| - 1]), batchSize, steps[|steps| - 1])
  }

  function Turns(steps: seq<Step>): (turns: seq<Turn>)
    ensures |turns| == |steps|
  {
    seq(|steps|, i requires 0 <= i < |steps| => steps[i].turn)
  }

  /** The step does with the book what its round, its time and the collector's answer ask for. */
  ghost predicate StepFrom(b: Book, batchSize: nat, s: Step, clean: bool) {
    && Selection(s.kept, Concat(s.round.queues), clean)
    && s.turn.nowMs == s.round.nowMs && s.turn.pending == (Drained(b, s.kept).pending != [])
    && (s.turn.flushed.Some? ==>
          s.turn.pending && CanEnd(Drained(b, s.kept), batchSize, s.round.answer, s.turn.flushed.value, clean))
  }

  /** The steps belong to these rounds, one each, and each starts where the one before has left the book. */
  ghost predicate Ran(b: Book, batchSize: nat, steps: seq<Step>, rounds: seq<Round>, clean: bool) {
    && |steps| == |rounds|
    && (steps != [] ==>
          var n := |steps| - 1;
          && Ran(b, batchSize, steps[..n], rounds[..n], clean)
          && steps[n].round == rounds[n] && StepFrom(After(b, batchSize, steps[..n]), batchSize, steps[n], clean))
  }

  lemma RanNothing(b: Book, batchSize: nat)
    ensures Ran(b, batchSize, [], [], true) && After(b, batchSize, []) == b && Turns([]) == []
  {
  }

  lemma StepFromWeaker(b: Book, batchSize: nat, s: Step, clean: bool)
    requires StepFrom(b, batchSize, s, true) || (!clean && StepFrom(b, batchSize, s, false))
    ensures StepFrom(b, batchSize, s, clean)
  {
    if StepFrom(b, batchSize, s, true) { SelectionWeaker(s.kept, Concat(s.round.queues), clean); }
  }

  lemma AfterOneMore(b: Book, batchSize: nat, steps: seq<Step>, s: Step)
    ensures After(b, batchSize, steps + [s]) == AfterStep(After(b, batchSize, steps), batchSize, s)
    ensures Turns(steps + [s]) == Turns(steps) + [s.turn]
    ensures After(b, batchSize, steps + [s]).accepted == After(b, batchSize, steps).accepted + s.kept
  {
    assert (steps + [s])[..|steps|] == steps;
  }

  lemma {:induction false} RanWeaker(b: Book, batchSize: nat, steps: seq<Step>, rounds: seq<Round>, clean: bool)
    requires Ran(b, batchSize, steps, rounds, true) || (!clean && Ran(b, batchSize, steps, rounds, false))
    ensures Ran(b, batchSize, steps, rounds, clean)
  {
    if steps != [] && Ran(b, batchSize, steps, rounds, true) {
      var n := |steps| - 1;
      RanWeaker(b, batchSize, steps[..n], rounds[..n], clean);
      StepFromWeaker(After(b, batchSize, steps[..n]), batchSize, steps[n], clean);
    }
    hide StepFrom;
  }

  /** One round more: a run stays clean while its rounds are. */
  lemma RanOneMore(b: Book, batchSize: nat, steps: seq<Step>, rounds: seq<Round>, was: bool, s: Step, clean: bool)
    requires Ran(b, batchSize, steps, rounds, was) && (clean ==> was)
    requires StepFrom(After(b, batchSize, steps), batchSize, s, clean)
    ensures Ran(b, batchSize, steps + [s], rounds + [s.round], clean)
  {
    RanWeaker(b, batchSize, steps, rounds, clean);
    assert (steps + [s])[..|steps|] == steps && (rounds + [s.round])[..|rounds|] == rounds;
    hide StepFrom, After;
  }

  // ---- What a run has handed over ----

  /** The rounds in which a batch was answered with success, with a refusal, and in which one was retired. */
  function Answered(steps: seq<Step>): nat {
    if steps == [] then 0
    else
      var last := steps[|steps| - 1];
      Answered(steps[..|steps| - 1]) + if last.turn.flushed.Some? && last.round.answer then 1 else 0
  }

  function Refused(steps: seq<Step>): nat {
    if steps == [] then 0
    else
      var last := steps[|steps| - 1];
      Refused(steps[..|steps| - 1]) + if last.turn.flushed.Some? && !last.round.answer then 1 else 0
  }

  function Retired(steps: seq<Step>): nat {
    if steps == [] then 0
    else Retired(steps[..|steps| - 1]) + if steps[|steps| - 1].turn.flushed == Some(true) then 1 else 0
  }

  /** Everything kept in the run, in order. */
  function KeptBy(steps: seq<Step>): seq<Line> {
    if steps == [] then [] else KeptBy(steps[..|steps| - 1]) + steps[|steps| - 1].kept
  }

  /** Between two books: exactly so many batches delivered, refused and retired, and nothing lost or reordered. */
  ghost predicate HandedOver(b: Book, a: Book, kept: seq<Line>, answered: nat, refused: nat, retired: nat, clean: bool)
  {
    && b.delivered <= a.delivered && |a.delivered| == |b.delivered| + answered
    && b.acked <= a.acked && |a.acked| == |b.acked| + retired
    && a.sendErrors == b.sendErrors + refused
    && Subseq(a.acked[|b.acked|..], a.delivered[|b.delivered|..])
    && (clean ==> a.acked[|b.acked|..] == a.delivered[|b.delivered|..])
    && a.accepted == b.accepted + kept
    && b.pending + kept == Concat(a.acked[|b.acked|..]) + a.pending
  }

  lemma NothingHandedOver(b: Book, clean: bool)
    ensures HandedOver(b, b, [], 0, 0, 0, clean)
  {
    assert b.acked[|b.acked|..] == [] && b.delivered[|b.delivered|..] == [];
    assert b.pending + [] == [] + b.pending && b.accepted + [] == b.accepted;
  }

  lemma DrainHandsOver(b: Book, kept: seq<Line>, clean: bool)
    ensures HandedOver(b, Drained(b, kept), kept, 0, 0, 0, clean)
  {
    assert b.acked[|b.acked|..] == [] && b.delivered[|b.delivered|..] == [];
    assert b.pending + kept == [] + (b.pending + kept);
  }

  lemma FlushHandsOver(b: Book, batchSize: nat, answer: bool, ok: bool, clean: bool)
    requires b.pending != [] && batchSize >= 1 && CanEnd(b, batchSize, answer, ok, clean)
    ensures HandedOver(b, Flushed(b, batchSize, answer, ok), [], if answer then 1 else 0, if answer then 0 else 1,
                       if ok then 1 else 0, clean)
  {
    var n := Min(|b.pending|, batchSize);
    var batch, a := b.pending[..n], Flushed(b, batchSize, answer, ok);
    assert b.accepted + [] == b.accepted && b.pending + [] == b.pending;
    assert a.delivered[|b.delivered|..] == if answer then [batch] else [];
    assert a.acked[|b.acked|..] == if ok then [batch] else [];
    assert Concat([batch]) == batch by { assert [batch][..0] == [] && [] + batch == batch; }
    TakeDrop(b.pending, n);
    assert [] + b.pending == b.pending;
    SubseqRefl([batch]);
  }

  lemma HandedOverOn(a: Book, b: Book, c: Book, kept: seq<Line>, more: seq<Line>, x: nat, y: nat, z: nat, x': nat,
                     y': nat, z': nat, clean: bool)
    requires HandedOver(a, b, kept, x, y, z, clean) && HandedOver(b, c, more, x', y', z', clean)
    ensures HandedOver(a, c, kept + more, x + x', y + y', z + z', clean)
  {
    var acked, later := b.acked[|a.acked|..], c.acked[|b.acked|..];
    var delivered, after := b.delivered[|a.delivered|..], c.delivered[|b.delivered|..];
    SliceOn(a.acked, b.acked, c.acked);
    SliceOn(a.delivered, b.delivered, c.delivered);
    SubseqAppend(acked, delivered, later, after);
    ConcatAppend(acked, later);
    PlusAssoc(a.accepted, kept, more);
    PlusAssoc(a.pending, kept, more);
    PlusAssoc(Concat(acked), b.pending, more);
    PlusAssoc(Concat(acked), Concat(later), c.pending);
    hide Concat, Subseq;
  }

  lemma SliceOn<T>(a: seq<T>, b: seq<T>, c: seq<T>)
    requires a <= b && b <= c
    ensures a <= c && c[|a|..] == b[|a|..] + c[|b|..]
  {
  }

  /**
    Over any run: every batch that counts as delivered was answered with success, one a round, every retired one was
    delivered, each refusal is one send error, and what was pending or kept is what was retired, then what is pending.
  */
  lemma {:induction false} RunHandsOver(b: Book, batchSize: nat, steps: seq<Step>, rounds: seq<Round>, clean: bool)
    requires Ran(b, batchSize, steps, rounds, clean) && batchSize >= 1
    ensures HandedOver(b, After(b, batchSize, steps), KeptBy(steps), Answered(steps), Refused(steps), Retired(steps),
                       clean)
  {
    if steps == [] {
      NothingHandedOver(b, clean);
    } else {
      var n := |steps| - 1;
      var init, last := steps[..n], steps[n];
      var before := After(b, batchSize, init);
      RunHandsOver(b, batchSize, init, rounds[..n], clean);
      var middle := Drained(before, last.kept);
      DrainHandsOver(before, last.kept, clean);
      var x, y, z := Answered(init), Refused(init), Retired(init);
      HandedOverOn(b, before, middle, KeptBy(init), last.kept, x, y, z, 0, 0, 0, clean);
      if last.turn.flushed.Some? {
        var answer, ok := last.round.answer, last.turn.flushed.value;
        FlushHandsOver(middle, batchSize, answer, ok, clean);
        HandedOverOn(b, middle, Flushed(middle, batchSize, answer, ok), KeptBy(steps), [], x, y, z,
                     if answer then 1 else 0, if answer then 0 else 1, if ok then 1 else 0, clean);
        assert KeptBy(steps) + [] == KeptBy(steps);
      }
      hide HandedOver, Drained, Flushed;
    }
  }

  // ---- The final flushes ----

  /** Flush after flush, the k-th answered by answers(k) and ending as oks says. */
  function FlushedBy(b: Book, batchSize: nat, answers: nat -> bool, oks: seq<bool>): Book {
    if oks == [] then b
    else
      var n := |oks| - 1;
      Flushed(FlushedBy(b, batchSize, answers, oks[..n]), batchSize, answers(n), oks[n])
  }

  /** Each flush found something pending, ended as its answer allows, and only the last one failed. */
  ghost predicate FlushRun(b: Book, batchSize: nat, answers: nat -> bool, oks: seq<bool>, clean: bool) {
    oks != [] ==>
      var n := |oks| - 1;
      var before := FlushedBy(b, batchSize, answers, oks[..n]);
      && FlushRun(b, batchSize, answers, oks[..n], clean) && (n > 0 ==> oks[n - 1])
      && before.pending != [] && CanEnd(before, batchSize, answers(n), oks[n], clean)
  }

  lemma NoFlushes(b: Book, batchSize: nat, answers: nat -> bool)
    ensures FlushRun(b, batchSize, answers, [], true) && FlushedBy(b, batchSize, answers, []) == b
  {
  }

  lemma {:induction false} FlushRunWeaker(b: Book, batchSize: nat, answers: nat -> bool, oks: seq<bool>, clean: bool)
    requires FlushRun(b, batchSize, answers, oks, true) || (!clean && FlushRun(b, batchSize, answers, oks, false))
    ensures FlushRun(b, batchSize, answers, oks, clean)
  {
    if oks != [] && FlushRun(b, batchSize, answers, oks, true) {
      var n := |oks| - 1;
      FlushRunWeaker(b, batchSize, answers, oks[..n], clean);
      CanEndWeaker(FlushedBy(b, batchSize, answers, oks[..n]), batchSize, answers(n), oks[n], clean);
    }
    hide CanEnd;
  }

  lemma FlushOneMore(b: Book, batchSize: nat, answers: nat -> bool, oks: seq<bool>, was: bool, ok: bool, clean: bool)
    requires FlushRun(b, batchSize, answers, oks, was) && (clean ==> was) && (oks != [] ==> oks[|oks| - 1])
    requires FlushedBy(b, batchSize, answers, oks).pending != []
    requires CanEnd(FlushedBy(b, batchSize, answers, oks), batchSize, answers(|oks|), ok, clean)
    ensures FlushRun(b, batchSize, answers, oks + [ok], clean)
    ensures FlushedBy(b, batchSize, answers, oks + [ok])
         == Flushed(FlushedBy(b, batchSize, answers, oks), batchSize, answers(|oks|), ok)
  {
    FlushRunWeaker(b, batchSize, answers, oks, clean);
    assert (oks + [ok])[..|oks|] == oks;
    hide CanEnd, Flushed;
  }

  /** How many of the first n answers were a success, and how many of the flushes. */
  function Trues(answers: nat -> bool, n: nat): nat {
    if n == 0 then 0 else Trues(answers, n - 1) + if answers(n - 1) then 1 else 0
  }

  function Oks(oks: seq<bool>): nat {
    if oks == [] then 0 else Oks(oks[..|oks| - 1]) + if oks[|oks| - 1] then 1 else 0
  }

  /** Over the final flushes one batch is delivered for each true answer, and one retired for each that went well. */
  lemma {:induction false} FlushRunHandsOver(b: Book, batchSize: nat, answers: nat -> bool, oks: seq<bool>, clean: bool)
    requires FlushRun(b, batchSize, answers, oks, clean) && batchSize >= 1
    ensures Trues(answers, |oks|) <= |oks|
    ensures HandedOver(b, FlushedBy(b, batchSize, answers, oks), [], Trues(answers, |oks|),
                       |oks| - Trues(answers, |oks|), Oks(oks), clean)
  {
    if oks == [] {
      NothingHandedOver(b, clean);
    } else {
      var n := |oks| - 1;
      var init := oks[..n];
      LastFlush(b, batchSize, answers, oks, clean);
      hide FlushRun, FlushedBy, Flushed, CanEnd, HandedOver, Trues, Oks;
      FlushRunHandsOver(b, batchSize, answers, init, clean);
      FlushMore(b, FlushedBy(b, batchSize, answers, init), batchSize, answers(n), oks[n], Trues(answers, n),
                n - Trues(answers, n), Oks(init), clean);
    }
  }

  lemma LastFlush(b: Book, batchSize: nat, answers: nat -> bool, oks: seq<bool>, clean: bool)
    requires FlushRun(b, batchSize, answers, oks, clean) && oks != []
    ensures var n := |oks| - 1;
            var before := FlushedBy(b, batchSize, answers, oks[..n]);
            && FlushRun(b, batchSize, answers, oks[..n], clean) && before.pending != []
            && CanEnd(before, batchSize, answers(n), oks[n], clean)
            && FlushedBy(b, batchSize, answers, oks) == Flushed(before, batchSize, answers(n), oks[n])
            && Trues(answers, |oks|) == Trues(answers, n) + (if answers(n) then 1 else 0)
            && Oks(oks) == Oks(oks[..n]) + (if oks[n] then 1 else 0)
  {
  }

  /** What has been handed over after one flush more. */
  lemma FlushMore(b: Book, before: Book, batchSize: nat, answer: bool, ok: bool, x: nat, y: nat, z: nat, clean: bool)
    requires HandedOver(b, before, [], x, y, z, clean)
    requires before.pending != [] && batchSize >= 1 && CanEnd(before, batchSize, answer, ok, clean)
    ensures HandedOver(b, Flushed(before, batchSize, answer, ok), [], x + if answer then 1 else 0,
                       y + if answer then 0 else 1, z + if ok then 1 else 0, clean)
  {
    FlushHandsOver(before, batchSize, answer, ok, clean);
    var none: seq<Line> := [];
    assert none + none == none;
    hide HandedOver, Flushed, CanEnd;
    HandedOverOn(b, before, Flushed(before, batchSize, answer, ok), none, none, x, y, z, if answer then 1 else 0,
                 if answer then 0 else 1, if ok then 1 else 0, clean);
  }

  /** Only the last flush can have been refused, and without failing calls only a refusal is a failure. */
  lemma {:induction false} OnlyTheLastFails(b: Book, batchSize: nat, answers: nat -> bool, oks: seq<bool>, clean: bool)
    requires FlushRun(b, batchSize, answers, oks, clean) && batchSize >= 1
    ensures var refused := oks != [] && !answers(|oks| - 1);
            && FlushedBy(b, batchSize, answers, oks).sendErrors == b.sendErrors + (if refused then 1 else 0)
            && (clean && oks != [] && !oks[|oks| - 1] ==> refused)
  {
    if oks != [] {
      var n := |oks| - 1;
      OnlyTheLastFails(b, batchSize, answers, oks[..n], clean);
    }
  }

  /** What is pending after m flushes that all went well. */
  function Remaining(pending: seq<Line>, batchSize: nat, m: nat): seq<Line> {
    if m == 0 then pending
    else
      var before := Remaining(pending, batchSize, m - 1);
      before[Min(|before|, batchSize)..]
  }

  lemma {:induction false} RemainingIs(pending: seq<Line>, batchSize: nat, m: nat)
    ensures var rest := Remaining(pending, batchSize, m);
            && |rest| <= |pending| && (batchSize == 0 ==> rest == pending)
            && (batchSize >= 1 ==> |rest| + m <= |pending| || rest == [])
  {
    if m > 0 { RemainingIs(pending, batchSize, m - 1); }
  }

  /** The final loop can end for want of records exactly when a batch may hold one, or none is pending to begin with. */
  lemma FlushingEndsExactly(pending: seq<Line>, batchSize: nat)
    ensures (exists m: nat :: Remaining(pending, batchSize, m) == []) <==> batchSize >= 1 || pending == []
  {
    RemainingIs(pending, batchSize, |pending|);
    forall m: nat ensures batchSize == 0 ==> Remaining(pending, batchSize, m) == pending {
      RemainingIs(pending, batchSize, m);
    }
  }

  // ---- Crash safety over a run ----

  /**
    Of the records that were promised at moment `from`, the first ones have been delivered since, in order, and the rest
    has been crash safe in every state of the disk and is still promised.
  */
  ghost predicate DeliveredOrSafe(history: seq<DiskState>, from: nat, must: seq<Line>, split: nat, delivered: seq<Line>,
                                  promise: seq<Line>) {
    && split <= |must| && Subseq(must[..split], delivered)
    && SafeSince(history, from, must[split..]) && Subseq(must[split..], promise)
  }

  lemma NothingDelivered(history: seq<DiskState>, must: seq<Line>)
    ensures DeliveredOrSafe(history, |history|, must, 0, [], must)
  {
    assert must[0..] == must && must[..0] == [];
    SubseqRefl(must);
  }

  /** Nothing has been delivered, and every state since keeps the promise, which has only grown. */
  lemma StillSafe(history: seq<DiskState>, from: nat, promise: seq<Line>, promise': seq<Line>)
    requires SafeSince(history, from, promise) && Subseq(promise, promise')
    ensures DeliveredOrSafe(history, from, promise, 0, [], promise')
  {
    assert promise[0..] == promise && promise[..0] == [];
  }

  lemma DeliveredSince(a: seq<seq<Line>>, b: seq<seq<Line>>, c: seq<seq<Line>>)
    requires a <= b && b <= c
    ensures a <= c && Concat(c[|a|..]) == Concat(b[|a|..]) + Concat(c[|b|..])
  {
    SliceOn(a, b, c);
    ConcatAppend(b[|a|..], c[|b|..]);
  }

  lemma OneDelivered(a: seq<seq<Line>>, batch: seq<Line>)
    ensures a <= a + [batch] && Concat((a + [batch])[|a|..]) == batch && Concat(a[|a|..]) == []
  {
    assert (a + [batch])[|a|..] == [batch] && [batch][..0] == [] && [] + batch == batch;
  }

  lemma DeliveredOrSafeOn(before: seq<DiskState>, history: seq<DiskState>, from: nat, must: seq<Line>, split: nat,
                          delivered: seq<Line>, promise: seq<Line>, split': nat, batch: seq<Line>, promise': seq<Line>)
    returns (further: nat)
    requires before <= history && DeliveredOrSafe(before, from, must, split, delivered, promise)
    requires DeliveredOrSafe(history, |before|, promise, split', batch, promise')
    ensures split <= further && DeliveredOrSafe(history, from, must, further, delivered + batch, promise')
  {
    var rest, gone, safe := must[split..], promise[..split'], promise[split'..];
    TakeDrop(promise, split');
    var k := SubseqSplit(rest, gone, safe);
    var moved, left := rest[..k], rest[k..];
    further := split + k;
    SplitFurther(must, split, k);
    hide Subseq, SafeSince;
    SubseqTrans(moved, gone, batch);
    SubseqAppend(must[..split], delivered, moved, batch);
    SubseqOfSuffix(rest, k);
    SafeSinceLess(before, from, rest, left);
    ThroughoutIsSafe(before, history, from, left, safe);
    SubseqTrans(left, safe, promise');
    assert must[..further] == must[..split] + moved && must[further..] == left;
  }

  lemma SplitFurther(must: seq<Line>, split: nat, k: nat)
    requires split + k <= |must|
    ensures must[..split + k] == must[..split] + must[split..][..k] && must[split + k..] == must[split..][k..]
  {
  }

  lemma SafeSinceLess(history: seq<DiskState>, from: nat, must: seq<Line>, less: seq<Line>)
    requires SafeSince(history, from, must) && Subseq(less, must)
    ensures SafeSince(history, from, less)
  {
    forall k | from <= k < |history| ensures CrashSafe(history[k], less) {
      assert CrashSafe(history[k], must);
      forall img | CrashImage(history[k], img) ensures Subseq(less, Log(img)) { SubseqTrans(less, must, Log(img)); }
    }
  }
}
