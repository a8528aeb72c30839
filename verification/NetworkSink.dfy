/** The network sink: a write-ahead log in segments, an in-memory list of unacknowledged records, and its rewrite. */
module NetworkSink {
  import opened Sequences
  import opened WalNames
  import opened WalDisk
  import opened WalSegments
  import opened WalFilesystem
  import opened WalGeneration
  import opened WalAppend
  import opened WalLoading
  import opened SinkLedger
  import opened SinkRuns
  import opened Backoff

  datatype SinkConfig = SinkConfig(segmentBytes: nat, walMaxBytes: nat, batchSize: nat,
                                   flushIntervalMs: nat, retryBaseMs: nat, retryMaxMs: nat)

  lemma PendingGrows(promise: seq<Line>, pending: seq<Line>, line: Line)
    requires Subseq(promise, pending)
    ensures Subseq(promise, pending + [line])
  {
    SubseqAppend(promise, pending, [], [line]);
    assert promise + [] == promise;
  }

  lemma EmptyPromise(d: DiskState, pending: seq<Line>)
    ensures Recoverable(d, [], 0) && Subseq([], pending)
  {
  }

  /** The disk watches over its promise, so every state since an earlier moment keeps it. */
  lemma SafeWhileWatched(history: seq<DiskState>, since: nat, from: nat, promise: seq<Line>)
    requires from <= since && forall k :: from <= k < |history| ==> CrashSafe(history[k], promise)
    ensures SafeSince(history, since, promise)
  {
    hide CrashSafe;
  }

  class NetworkEventSink {
    const config: SinkConfig
    const fs: Filesystem
    var pending: seq<Line>
    var current: Option<nat>
    var currentSize: nat
    var nextIndex: nat
    var acceptedEvents: nat
    var writeErrors: nat
    var sentEvents: nat
    var sendErrors: nat
    var overflowDropped: nat
    var retryCount: nat

    ghost var loaded: seq<Line>
    ghost var accepted: seq<Line>
    /** Batches the collector answered with success; `acked` are those whose removal became durable. */
    ghost var delivered: seq<seq<Line>>
    ghost var acked: seq<seq<Line>>

    /** One past the current segment. */
    function End(): nat
      reads this`current
    {
      if current.Some? then current.value + 1 else 0
    }

    /**
      The pending records are a selection of the log, all of it at or before the end of the current segment, and
      whatever the disk promises to keep is among them.
    */
    ghost predicate Logged()
      reads fs, this`pending, this`current, this`nextIndex
    {
      && fs.Valid() && fs.bound <= nextIndex && End() <= nextIndex
      && Subseq(fs.promise, pending)
      && Subseq(pending, LogBelow(LiveView(fs.state), End()))
    }

    ghost function Books(): Book
      reads this`pending, this`accepted, this`delivered, this`acked, this`sendErrors
    {
      Book(pending, accepted, delivered, acked, sendErrors)
    }

    ghost predicate Conserved()
      reads this`loaded, this`accepted, this`acked, this`delivered, this`pending, this`sentEvents, this`acceptedEvents
    {
      && Ledger(loaded, accepted, acked, delivered, pending)
      && sentEvents == |Concat(delivered)| && acceptedEvents == |accepted|
    }

    constructor (fs: Filesystem, config: SinkConfig)
      ensures this.fs == fs && this.config == config && pending == [] && current == None && nextIndex == 1
    {
      this.fs, this.config := fs, config;
      pending, current, currentSize, nextIndex := [], None, 0, 1;
      acceptedEvents, writeErrors, sentEvents, sendErrors, overflowDropped, retryCount := 0, 0, 0, 0, 0, 0;
      loaded, accepted, delivered, acked := [], [], [], [];
    }

    /** next_wal_path, with its post-increment. */
    method NextSegment() returns (index: nat)
      modifies this`nextIndex
      ensures index == old(nextIndex) && nextIndex == index + 1
    {
      index := nextIndex;
      nextIndex := nextIndex + 1;
    }

    /** The rotation at the head of append_wal. */
    method Rotate()
      requires Logged()
      modifies this`current, this`currentSize, this`nextIndex
      ensures Logged()
      ensures var place := Place(old(current), old(currentSize), old(nextIndex), config.segmentBytes);
              current == Some(place.index) && currentSize == place.size && nextIndex == place.next
      ensures config.segmentBytes > 0 ==> currentSize < config.segmentBytes
      ensures if old(currentSize) >= config.segmentBytes then currentSize == 0 else currentSize == old(currentSize)
      ensures old(current).Some? ==>
                if old(currentSize) >= config.segmentBytes
                then current == Some(old(nextIndex)) && nextIndex == old(nextIndex) + 1
                else current == old(current) && nextIndex == old(nextIndex)
      ensures old(current).None? && old(currentSize) < config.segmentBytes ==>
                current == Some(old(nextIndex)) && nextIndex == old(nextIndex) + 1
    {
      if current.None? {
        var index := NextSegment();
        current := Some(index);
      }
      if currentSize >= config.segmentBytes {
        var index := NextSegment();
        current := Some(index);
        currentSize := 0;
      }
      GrowLog(pending, LiveView(fs.state), LiveView(fs.state), old(End()), End());
    }

    /** append_wal: rotate when the current segment is full, then write one line at its end. */
    method AppendWal(line: Line) returns (ok: bool)
      requires Logged()
      modifies this`current, this`currentSize, this`nextIndex, fs
      ensures Logged() && fs.Grew()
      ensures ok <==> fs.failures == old(fs.failures)
      ensures var place := Place(old(current), old(currentSize), old(nextIndex), config.segmentBytes);
              && current == Some(place.index) && nextIndex == place.next
              && currentSize == place.size + (if ok then |line| + 2 else 0)
      ensures old(current).Some? ==>
                if old(currentSize) >= config.segmentBytes
                then current == Some(old(nextIndex)) && currentSize == if ok then |line| + 2 else 0
                else current == old(current) && currentSize == old(currentSize) + if ok then |line| + 2 else 0
      ensures ok ==> LiveView(fs.state) == WithLine(LiveView(old(fs.state)), current.value, line)
      ensures ok ==> Subseq(pending + [line], LogBelow(LiveView(fs.state), End()))
    {
      hide Recoverable, CrashSafe, ValidState, Subseq, LogBelow;
      Rotate();
      ghost var view := LiveView(fs.state);
      ok := WriteLine(fs, current.value, line);
      AfterWrite(pending, view, LiveView(fs.state), current.value, line);
      if ok {
        LineAtTheEnd(pending, view, current.value, line);
        currentSize := currentSize + |line| + 2;
      }
    }

    /**
      rewrite_wal_locked: replace the log by the records that remain after the first `ackedCount`.

      `must` is any selection of the remaining records that a crash below segment b would leave loadable at the start.
      Every disk state the call goes through keeps it loadable; a failed call changes nothing in memory; a successful
      one makes every remaining record survive any crash; and one without failing calls leaves exactly those records,
      now and after any crash: nothing acknowledged comes back.
    */
    method RewriteWal(ackedCount: nat, ghost must: seq<Line>, ghost b: nat)
      returns (ok: bool, ghost first: nat, ghost chunks: seq<seq<Line>>)
      requires Logged() && ackedCount <= |pending|
      requires Subseq(must, pending[ackedCount..]) && Recoverable(fs.state, must, b) && b <= nextIndex
      modifies this`pending, this`current, this`currentSize, this`nextIndex, fs
      ensures Logged() && old(fs.history) <= fs.history && old(fs.failures) <= fs.failures
      ensures SafeSince(fs.history, old(|fs.history|), must)
      ensures !ok ==> pending == old(pending) && current == old(current) && currentSize == old(currentSize)
                      && nextIndex == old(nextIndex) && fs.promise == must
      ensures ok ==> pending == old(pending)[ackedCount..] && fs.promise == pending
      ensures ok ==> Greedy(chunks, config.segmentBytes) && Concat(chunks) == pending && old(nextIndex) <= first
      ensures ok ==> current == Some(first + |chunks| - 1) && currentSize == Bytes(chunks[|chunks| - 1])
                     && nextIndex == first + |chunks| && Holds(LiveView(fs.state), first, chunks)
      ensures fs.failures == old(fs.failures) ==>
                && ok && Log(LiveView(fs.state)) == pending && CrashLeaves(fs.state, pending)
                && (forall i :: i in LiveView(old(fs.state)) ==> i < first)
                && (forall i :: i in LiveView(fs.state) ==> first <= i < nextIndex)
    {
      hide Recoverable, CrashSafe, ValidState, Subseq, LogBelow, Published, Greedy, CrashImage;
      ghost var view, from := LiveView(fs.state), |fs.history|;
      var remaining := pending[ackedCount..];
      MustIsPending(must, pending, ackedCount);
      var oldSegments, next, lastSize;
      ok, oldSegments, next, lastSize, first, chunks :=
        PrepareGeneration(fs, remaining, nextIndex, config.segmentBytes, must, b);
      LogBelowAgrees(view, LiveView(fs.state), End());
      if ok {
        CommitGeneration(remaining, oldSegments, next, lastSize, first, chunks, must, from);
        GenerationIsLogged(LiveView(fs.state), first, chunks);
        if fs.failures == old(fs.failures) { CrashLeavesGeneration(fs.state, first, chunks); }
        hide CrashLeaves;
      }
    }

    /** The second half of a rewrite: the in-memory commit and the removal of the old segments. */
    method CommitGeneration(remaining: seq<Line>, oldSegments: seq<nat>, next: nat, lastSize: nat,
                            ghost first: nat, ghost chunks: seq<seq<Line>>, ghost must: seq<Line>, ghost from: nat)
      requires fs.Valid() && fs.from == from <= |fs.history| && fs.promise == must && Subseq(must, remaining)
      requires Published(fs.state, first, chunks) && Holds(LiveView(fs.state), first, chunks)
      requires chunks != [] && Concat(chunks) == remaining && next == first + |chunks|
      requires forall i :: i in oldSegments ==> i < first
      modifies this`pending, this`current, this`currentSize, this`nextIndex, fs
      ensures Logged() && old(fs.history) <= fs.history && old(fs.failures) <= fs.failures
      ensures SafeSince(fs.history, from, must) && fs.promise == remaining
      ensures pending == remaining && current == Some(next - 1) && currentSize == lastSize && nextIndex == next
      ensures Holds(LiveView(fs.state), first, chunks)
      ensures forall i :: i in LiveView(fs.state) ==> i in LiveView(old(fs.state))
      ensures fs.failures == old(fs.failures) ==>
                && fs.state.unsynced == [] && Published(fs.state, first, chunks)
                && forall i :: i in oldSegments ==> i !in LiveView(fs.state)
    {
      hide Recoverable, CrashSafe, ValidState, Subseq, LogBelow, Published, CrashImage, Holds;
      pending, current, currentSize, nextIndex := remaining, Some(next - 1), lastSize, next;
      ghost var published := fs.history;
      PublishedIsRecoverable(fs.state, first, chunks);
      fs.Promise(remaining, nextIndex);
      SubseqRefl(remaining);
      CleanOldGeneration(fs, oldSegments, first, chunks);
      ThroughoutIsSafe(published, fs.history, from, must, remaining);
      GenerationIsLogged(LiveView(fs.state), first, chunks);
    }

    ghost predicate Valid()
      reads this, fs
    {
      Logged() && Conserved()
    }

    /** The log is below its limit, or holds nothing but what is pending. */
    ghost predicate Compact()
      reads this`pending, fs`state
    {
      || BytesUnder(LiveView(fs.state), LiveView(fs.state).Keys) < config.walMaxBytes
      || Log(LiveView(fs.state)) == pending
    }

    /**
      ack_pending: rewrite the log without the first n records. `split` divides the promised records into acknowledged
      ones and the rest, which stay crash safe throughout.
    */
    method AckPending(n: nat) returns (ok: bool, ghost split: nat)
      requires Logged() && n <= |pending|
      modifies this`pending, this`current, this`currentSize, this`nextIndex, fs
      ensures Logged() && old(fs.history) <= fs.history && old(fs.failures) <= fs.failures
      ensures split <= |old(fs.promise)| && Subseq(old(fs.promise)[..split], old(pending)[..n])
      ensures SafeSince(fs.history, old(|fs.history|), old(fs.promise)[split..])
      ensures fs.failures == old(fs.failures) ==>
                ok && Log(LiveView(fs.state)) == pending && CrashLeaves(fs.state, pending)
      ensures pending == (if ok then old(pending)[n..] else old(pending)) && (ok ==> fs.promise == pending)
      ensures Subseq(old(fs.promise)[split..], fs.promise)
    {
      hide Recoverable, CrashSafe, ValidState, Subseq, LogBelow, CrashImage, Greedy, Holds;
      assert pending[..n] + pending[n..] == pending;
      split := SubseqSplit(fs.promise, pending[..n], pending[n..]);
      SubseqOfSuffix(fs.promise, split);
      RecoverableLess(fs.state, fs.promise, fs.promise[split..], fs.bound);
      ghost var first, chunks;
      SubseqRefl(fs.promise[split..]);
      ok, first, chunks := RewriteWal(n, fs.promise[split..], fs.bound);
    }

    /**
      flush_pending: send the oldest records and, if the collector answers with success, drop them. `split` divides the
      promised records into those of the delivered batch and those that stay crash safe throughout.
    */
    method FlushPending(answer: bool) returns (ok: bool, ghost outcome: FlushOutcome, ghost split: nat)
      requires Valid()
      modifies this`pending, this`current, this`currentSize, this`nextIndex, this`sentEvents, this`sendErrors,
               this`delivered, this`acked, fs
      ensures Valid() && old(fs.history) <= fs.history && old(fs.failures) <= fs.failures
      ensures var n := Min(|old(pending)|, config.batchSize);
              var batch := old(pending)[..n];
              && (outcome.Idle? <==> n == 0) && (outcome.Refused? <==> n != 0 && !answer)
              && (ok <==> outcome.Idle? || outcome.Retired?)
              && sendErrors == old(sendErrors) + (if outcome.Refused? then 1 else 0)
              && (outcome.Retained? ==> fs.failures > old(fs.failures)) && (outcome.Retired? ==> fs.promise == pending)
              && delivered == old(delivered) + (if outcome.Retired? || outcome.Retained? then [batch] else [])
              && acked == old(acked) + (if outcome.Retired? then [batch] else [])
              && pending == (if outcome.Retired? then old(pending)[n..] else old(pending))
      ensures outcome.Idle? || outcome.Refused? ==> fs.state == old(fs.state)
      ensures outcome.Retired? && fs.failures == old(fs.failures) ==>
                Log(LiveView(fs.state)) == pending && CrashLeaves(fs.state, pending)
      ensures fs.failures == old(fs.failures) && old(Compact()) ==> Compact()
      ensures old(delivered) <= delivered
              && DeliveredOrSafe(fs.history, |old(fs.history)|, old(fs.promise), split,
                                 Concat(delivered[|old(delivered)|..]), fs.promise)
    {
      hide Recoverable, CrashSafe, ValidState, Subseq, LogBelow, Concat, BytesUnder, CrashLeaves, LiveView, Log;
      var n := Min(|pending|, config.batchSize);
      var batch := pending[..n];
      NothingDelivered(fs.history, fs.promise);
      OneDelivered(delivered, batch);
      split := 0;
      if batch == [] { return true, Idle, 0; }
      if !answer {
        sendErrors := sendErrors + 1;
        return false, Refused, 0;
      }
      LedgerDelivers(loaded, accepted, acked, delivered, pending, batch);
      sentEvents, delivered := sentEvents + |batch|, delivered + [batch];
      ok, split := AckPending(n);
      outcome := if ok then Retired else Retained;
      if ok {
        LedgerRetires(loaded, accepted, acked, old(delivered), old(pending), n);
        acked := acked + [batch];
      }
      hide SafeSince;
    }

    /** Appends one event's line to the log and to the pending records. */
    method LogLine(line: Line) returns (ok: bool)
      requires Valid()
      modifies this`pending, this`current, this`currentSize, this`nextIndex, this`accepted, this`acceptedEvents, fs
      ensures Valid() && fs.Grew() && (ok <==> fs.failures == old(fs.failures))
      ensures var kept := if ok then [line] else [];
              pending == old(pending) + kept && accepted == old(accepted) + kept
    {
      hide Recoverable, CrashSafe, ValidState, Subseq, LogBelow, Concat;
      ok := AppendWal(line);
      if ok {
        PendingGrows(fs.promise, pending, line);
        LedgerAccepts(loaded, accepted, acked, delivered, pending, line);
        pending, accepted, acceptedEvents := pending + [line], accepted + [line], acceptedEvents + 1;
      }
    }

    /** The body of the drain loop for one popped event. */
    method HandleEvent(event: QueuedEvent) returns (outcome: Outcome)
      requires Valid()
      modifies this`pending, this`current, this`currentSize, this`nextIndex, this`accepted, this`acceptedEvents,
               this`writeErrors, this`overflowDropped, fs
      ensures Valid() && fs.Grew()
      ensures var kept := if outcome.Accepted? then [event.line] else [];
              pending == old(pending) + kept && accepted == old(accepted) + kept
      ensures writeErrors == old(writeErrors) + (if outcome.WriteError? then 1 else 0)
      ensures overflowDropped == old(overflowDropped) + (if outcome.Overflow? then 1 else 0)
      ensures outcome.Overflow? ==>
                !event.critical && BytesUnder(LiveView(fs.state), LiveView(fs.state).Keys) >= config.walMaxBytes
      ensures outcome.WriteError? ==> fs.failures > old(fs.failures)
      ensures outcome.Accepted? && fs.failures == old(fs.failures) && !event.critical ==>
                BytesUnder(LiveView(old(fs.state)), LiveView(old(fs.state)).Keys) < config.walMaxBytes
    {
      hide Recoverable, CrashSafe, ValidState, Subseq, LogBelow, Concat, BytesUnder, Ledger;
      var bytes := fs.SegmentBytes();
      if bytes >= config.walMaxBytes && !event.critical {
        overflowDropped := overflowDropped + 1;
        return Overflow;
      }
      var written := LogLine(event.line);
      if !written {
        writeErrors := writeErrors + 1;
        return WriteError;
      }
      return Accepted;
    }

    /** Pops one input queue until it is empty. */
    method DrainQueue(queue: seq<QueuedEvent>) returns (ghost kept: seq<Line>)
      requires Valid()
      modifies this`pending, this`current, this`currentSize, this`nextIndex, this`accepted, this`acceptedEvents,
               this`writeErrors, this`overflowDropped, fs
      ensures Valid() && fs.Grew()
      ensures old(writeErrors) <= writeErrors && old(overflowDropped) <= overflowDropped
      ensures pending == old(pending) + kept && accepted == old(accepted) + kept
      ensures |queue| == |kept| + (writeErrors - old(writeErrors)) + (overflowDropped - old(overflowDropped))
      ensures Selection(kept, queue, fs.failures == old(fs.failures))
    {
      hide Recoverable, CrashSafe, ValidState, Subseq, LogBelow, Concat, BytesUnder;
      kept := [];
      var k := 0;
      SelectionEmpty();
      assert queue[..0] == [];
      while k < |queue|
        invariant 0 <= k <= |queue|
        invariant Valid() && fs.Grew()
        invariant old(writeErrors) <= writeErrors && old(overflowDropped) <= overflowDropped
        invariant pending == old(pending) + kept && accepted == old(accepted) + kept
        invariant k == |kept| + (writeErrors - old(writeErrors)) + (overflowDropped - old(overflowDropped))
        invariant Selection(kept, queue[..k], fs.failures == old(fs.failures))
      {
        var outcome := HandleEvent(queue[k]);
        assert queue[..k + 1] == queue[..k] + [queue[k]];
        var more := if outcome.Accepted? then [queue[k].line] else [];
        SelectionSnoc(kept, queue[..k], queue[k], outcome, fs.failures == old(fs.failures));
        kept := kept + more;
        k := k + 1;
      }
      assert queue[..k] == queue;
    }

    /** enforce_wal_limit: compact the log when it is over the limit; nothing pending changes. */
    method EnforceWalLimit()
      requires Valid()
      modifies this`pending, this`current, this`currentSize, this`nextIndex, fs
      ensures Valid() && old(fs.history) <= fs.history && old(fs.failures) <= fs.failures
      ensures pending == old(pending)
      ensures SafeSince(fs.history, old(|fs.history|), old(fs.promise)) && Subseq(old(fs.promise), fs.promise)
      ensures BytesUnder(LiveView(old(fs.state)), LiveView(old(fs.state)).Keys) < config.walMaxBytes ==>
                fs.state == old(fs.state) && fs.promise == old(fs.promise)
      ensures fs.failures == old(fs.failures)
              && BytesUnder(LiveView(old(fs.state)), LiveView(old(fs.state)).Keys) >= config.walMaxBytes ==>
                Log(LiveView(fs.state)) == pending && fs.promise == pending && CrashLeaves(fs.state, pending)
      ensures fs.failures == old(fs.failures) ==> Compact()
    {
      hide Recoverable, CrashSafe, ValidState, Subseq, LogBelow, CrashImage, Greedy, Holds, BytesUnder;
      var bytes := fs.SegmentBytes();
      assert pending[0..] == pending;
      SubseqRefl(fs.promise);
      if bytes >= config.walMaxBytes {
        var ok;
        ghost var first, chunks;
        ok, first, chunks := RewriteWal(0, fs.promise, fs.bound);
      }
    }

    /** The loop of drain_queues_once over its queues. */
    method DrainQueues(queues: seq<seq<QueuedEvent>>) returns (ghost kept: seq<Line>)
      requires Valid()
      modifies this`pending, this`current, this`currentSize, this`nextIndex, this`accepted, this`acceptedEvents,
               this`writeErrors, this`overflowDropped, fs
      ensures Valid() && fs.Grew()
      ensures old(writeErrors) <= writeErrors && old(overflowDropped) <= overflowDropped
      ensures pending == old(pending) + kept && accepted == old(accepted) + kept
      ensures |Concat(queues)| == |kept| + (writeErrors - old(writeErrors)) + (overflowDropped - old(overflowDropped))
      ensures Selection(kept, Concat(queues), fs.failures == old(fs.failures))
    {
      hide Recoverable, CrashSafe, ValidState, Subseq, LogBelow, BytesUnder, Selection;
      kept := [];
      var q := 0;
      SelectionEmpty();
      assert queues[..0] == [];
      while q < |queues|
        invariant 0 <= q <= |queues|
        invariant Valid() && fs.Grew()
        invariant old(writeErrors) <= writeErrors && old(overflowDropped) <= overflowDropped
        invariant pending == old(pending) + kept && accepted == old(accepted) + kept
        invariant |Concat(queues[..q])|
                  == |kept| + (writeErrors - old(writeErrors)) + (overflowDropped - old(overflowDropped))
        invariant Selection(kept, Concat(queues[..q]), fs.failures == old(fs.failures))
      {
        label before:
        ghost var more := DrainQueue(queues[q]);
        assert queues[..q + 1] == queues[..q] + [queues[q]];
        ConcatSnoc(queues[..q], queues[q]);
        SelectionAppend(kept, Concat(queues[..q]), old@before(fs.failures) == old(fs.failures),
                        more, queues[q], fs.failures == old@before(fs.failures));
        kept := kept + more;
        q := q + 1;
      }
      assert queues[..q] == queues;
    }

    /** drain_queues_once: every popped event is logged, counted as a write error, or counted as dropped. */
    method DrainQueuesOnce(queues: seq<seq<QueuedEvent>>) returns (ghost kept: seq<Line>)
      requires Valid()
      modifies this`pending, this`current, this`currentSize, this`nextIndex, this`accepted, this`acceptedEvents,
               this`writeErrors, this`overflowDropped, fs
      ensures Valid() && old(fs.history) <= fs.history && old(fs.failures) <= fs.failures
      ensures old(writeErrors) <= writeErrors && old(overflowDropped) <= overflowDropped
      ensures pending == old(pending) + kept && accepted == old(accepted) + kept
      ensures |Concat(queues)| == |kept| + (writeErrors - old(writeErrors)) + (overflowDropped - old(overflowDropped))
      ensures Selection(kept, Concat(queues), fs.failures == old(fs.failures))
      ensures DeliveredOrSafe(fs.history, old(|fs.history|), old(fs.promise), 0, [], fs.promise)
      ensures fs.failures == old(fs.failures) ==> Compact()
    {
      hide Recoverable, CrashSafe, ValidState, Subseq, LogBelow, BytesUnder, SafeSince, Selection, DeliveredOrSafe,
        CrashLeaves, Compact;
      kept := DrainQueues(queues);
      ghost var drained, promise := fs.history, fs.promise;
      SafeWhileWatched(drained, old(|fs.history|), fs.from, promise);
      EnforceWalLimit();
      SubseqRefl(promise);
      ThroughoutIsSafe(drained, fs.history, old(|fs.history|), promise, promise);
      StillSafe(fs.history, old(|fs.history|), promise, fs.promise);
      SelectionWeaker(kept, Concat(queues), fs.failures == old(fs.failures));
    }

    /** load_wal: read every listed segment in the order of the sorted names, and start a new segment above them. */
    method LoadWal() returns (ghost listed: seq<nat>)
      requires fs.Valid()
      modifies this`pending, this`current, this`currentSize, this`nextIndex, this`loaded, this`accepted, this`delivered,
               this`acked, this`sentEvents, this`acceptedEvents, fs
      ensures fs.Valid() && fs.history == old(fs.history) && fs.state == old(fs.state)
      ensures old(fs.failures) <= fs.failures
      ensures Distinct(listed) && (set i | i in listed) <= LiveView(fs.state).Keys
      ensures fs.failures == old(fs.failures) ==> (set i | i in listed) == LiveView(fs.state).Keys
      ensures Subseq(pending, ReadAll(LiveView(fs.state), SortByName(listed)))
      ensures fs.failures == old(fs.failures) ==> pending == ReadAll(LiveView(fs.state), SortByName(listed))
      ensures fs.failures == old(fs.failures) ==> multiset(pending) == multiset(Log(LiveView(fs.state)))
      ensures loaded == pending && accepted == [] && acked == [] && delivered == []
      ensures nextIndex == MaxOf(listed) + 2 && current == Some(MaxOf(listed) + 1) && currentSize == 0
      ensures Short(listed) ==> Valid()
      ensures Short(listed) && fs.failures == old(fs.failures) ==> pending == Log(LiveView(fs.state))
      ensures Short(listed) && fs.failures == old(fs.failures) && Settled(fs.state) ==> fs.promise == pending
    {
      hide Recoverable, CrashSafe, ValidState, Subseq, LogBelow, SortByName, ReadAll, Settled, Short, Distinct, Concat,
        Ledger, MaxOf;
      ghost var view := LiveView(fs.state);
      var lines, maxIndex;
      listed, lines, maxIndex := ReadSegments(fs);
      Adopt(lines, maxIndex);
      if fs.failures == old(fs.failures) { LoadedInAnyOrder(view, listed); }
      if Short(listed) {
        LoadedPending(view, listed, pending);
        if Settled(fs.state) && fs.failures == old(fs.failures) { PromisePending(); }
      }
    }

    /** The fields as loading leaves them; nothing has been promised yet. */
    method Adopt(lines: seq<Line>, maxIndex: nat)
      requires fs.Valid()
      modifies this`pending, this`current, this`currentSize, this`nextIndex, this`loaded, this`accepted, this`delivered,
               this`acked, this`sentEvents, this`acceptedEvents, fs`promise, fs`bound, fs`from
      ensures fs.Valid() && fs.bound == 0 && Subseq(fs.promise, pending) && Conserved()
      ensures pending == loaded == lines && accepted == [] && acked == [] && delivered == []
      ensures nextIndex == maxIndex + 2 && current == Some(maxIndex + 1) && currentSize == 0
    {
      hide Recoverable, CrashSafe, ValidState, Subseq, Concat, Ledger;
      pending, nextIndex, current, currentSize := lines, maxIndex + 2, Some(maxIndex + 1), 0;
      sentEvents, acceptedEvents := 0, 0;
      loaded, accepted, acked, delivered := pending, [], [], [];
      FreshLedger(pending);
      PromiseNothing();
    }

    /** There is nothing yet that the disk has to keep. */
    ghost method PromiseNothing()
      requires fs.Valid()
      modifies fs`promise, fs`bound, fs`from
      ensures fs.Valid() && fs.bound == 0 && Subseq(fs.promise, pending)
    {
      hide Recoverable, CrashSafe, ValidState, Subseq;
      EmptyPromise(fs.state, pending);
      fs.Promise([], 0);
    }

    /** What has been loaded from a disk without unsynced changes is safe. */
    ghost method PromisePending()
      requires Logged() && Settled(fs.state) && pending == Log(LiveView(fs.state))
      requires forall i :: i in LiveView(fs.state) ==> i < nextIndex
      modifies fs`promise, fs`bound, fs`from
      ensures Logged() && fs.promise == pending
    {
      SettledIsRecoverable(fs.state, nextIndex);
      SubseqRefl(pending);
      fs.Promise(pending, nextIndex);
    }

    function Schedule(startMs: nat): Pacing {
      Pacing(startMs, config.flushIntervalMs, config.retryBaseMs, config.retryMaxMs)
    }

    /** The second half of the worker loop's body: flush when due, and schedule the next flush by how it went. */
    method FlushWhenDue(nowMs: nat, answer: bool, startMs: nat, retryMs: nat, nextFlushMs: nat, ghost turns: seq<Turn>)
      returns (retry: nat, nextFlush: nat, ghost turn: Turn, ghost split: nat)
      requires Valid() && OnSchedule(turns, Schedule(startMs), retryMs, nextFlushMs)
      modifies this`pending, this`current, this`currentSize, this`nextIndex, this`sentEvents, this`sendErrors,
               this`delivered, this`acked, this`retryCount, fs
      ensures Valid() && old(fs.history) <= fs.history && old(fs.failures) <= fs.failures
      ensures old(sendErrors) <= sendErrors && OnSchedule(turns + [turn], Schedule(startMs), retry, nextFlush)
      ensures turn.nowMs == nowMs && turn.pending == (old(pending) != []) && (turn.flushed.Some? ==> turn.pending)
      ensures match turn.flushed
              case None => Books() == old(Books())
              case Some(ok) =>
                && CanEnd(old(Books()), config.batchSize, answer, ok, fs.failures == old(fs.failures))
                && Books() == Flushed(old(Books()), config.batchSize, answer, ok)
      ensures retryCount + Failures(turns) == old(retryCount) + Failures(turns + [turn])
      ensures turn.flushed == Some(true) && config.batchSize >= 1 && fs.failures == old(fs.failures) ==>
                CrashLeaves(fs.state, pending)
      ensures fs.failures == old(fs.failures) && old(Compact()) ==> Compact()
      ensures old(delivered) <= delivered
              && DeliveredOrSafe(fs.history, |old(fs.history)|, old(fs.promise), split,
                                 Concat(delivered[|old(delivered)|..]), fs.promise)
    {
      hide Recoverable, CrashSafe, ValidState, Subseq, LogBelow, SafeSince, Ledger, Concat, OnSchedule, DeliveredOrSafe,
        Failures, CrashLeaves, Compact;
      retry, nextFlush, turn, split := retryMs, nextFlushMs, Turn(nowMs, pending != [], None), 0;
      NothingDelivered(fs.history, fs.promise);
      OneDelivered(delivered, []);
      if pending != [] && nowMs >= nextFlushMs {
        var ok;
        ghost var outcome;
        ok, outcome, split := FlushPending(answer);
        turn := turn.(flushed := Some(ok));
        if ok {
          nextFlush := nowMs + config.flushIntervalMs;
          retry := config.retryBaseMs;
        } else {
          retryCount := retryCount + 1;
          nextFlush := nowMs + retry;
          retry := NextRetry(retry, config.retryMaxMs);
        }
      }
      ScheduleNext(turns, Schedule(startMs), retryMs, nextFlushMs, turn);
    }

    /** The loop's body. */
    method OneRound(round: Round, startMs: nat, retryMs: nat, nextFlushMs: nat, ghost turns: seq<Turn>)
      returns (retry: nat, nextFlush: nat, ghost step: Step, ghost split: nat)
      requires Valid() && OnSchedule(turns, Schedule(startMs), retryMs, nextFlushMs)
      modifies this`pending, this`current, this`currentSize, this`nextIndex, this`accepted, this`acceptedEvents,
               this`writeErrors, this`overflowDropped, this`sentEvents, this`sendErrors, this`delivered, this`acked,
               this`retryCount, fs
      ensures Valid() && old(fs.history) <= fs.history && old(fs.failures) <= fs.failures
      ensures step.round == round && OnSchedule(turns + [step.turn], Schedule(startMs), retry, nextFlush)
      ensures StepFrom(old(Books()), config.batchSize, step, fs.failures == old(fs.failures))
      ensures Books() == AfterStep(old(Books()), config.batchSize, step)
      ensures old(accepted) <= accepted && old(sendErrors) <= sendErrors
      ensures |Concat(round.queues)| == |step.kept| + (writeErrors - old(writeErrors))
                                        + (overflowDropped - old(overflowDropped))
      ensures retryCount + Failures(turns) == old(retryCount) + Failures(turns + [step.turn])
      ensures step.turn.flushed == Some(true) && config.batchSize >= 1 && fs.failures == old(fs.failures) ==>
                CrashLeaves(fs.state, pending)
      ensures fs.failures == old(fs.failures) ==> Compact()
      ensures old(delivered) <= delivered
              && DeliveredOrSafe(fs.history, |old(fs.history)|, old(fs.promise), split,
                                 Concat(delivered[|old(delivered)|..]), fs.promise)
    {
      hide Recoverable, CrashSafe, ValidState, Subseq, LogBelow, Selection, SafeSince, Ledger, Concat, OnSchedule,
        DeliveredOrSafe, Failures, CanEnd, Flushed, CrashLeaves, Compact;
      ghost var kept := DrainQueuesOnce(round.queues);
      ghost var clean, history, promise := fs.failures == old(fs.failures), fs.history, fs.promise;
      ghost var middle, failures := Books(), fs.failures;
      assert middle == SinkRuns.Drained(old(Books()), kept);
      ghost var turn, flushSplit;
      retry, nextFlush, turn, flushSplit :=
        FlushWhenDue(round.nowMs, round.answer, startMs, retryMs, nextFlushMs, turns);
      step := Step(round, kept, turn);
      SelectionWeaker(kept, Concat(round.queues), fs.failures == old(fs.failures));
      if turn.flushed.Some? {
        CanEndWeaker(middle, config.batchSize, round.answer, turn.flushed.value, fs.failures == old(fs.failures));
      }
      split := DeliveredOrSafeOn(history, fs.history, |old(fs.history)|, old(fs.promise), 0, [], promise,
                                 flushSplit, Concat(delivered[|old(delivered)|..]), fs.promise);
      assert [] + Concat(delivered[|old(delivered)|..]) == Concat(delivered[|old(delivered)|..]);
    }

    /**
      The worker loop: drain, flush when due, back off after failures. The sink ends where its rounds, the collector's
      answers and the pacing lead; of the records promised before, those not delivered since are crash safe throughout.
    */
    method RunLoop(rounds: seq<Round>, startMs: nat) returns (ghost steps: seq<Step>, ghost split: nat)
      requires Valid()
      modifies this`pending, this`current, this`currentSize, this`nextIndex, this`accepted, this`acceptedEvents,
               this`writeErrors, this`overflowDropped, this`sentEvents, this`sendErrors, this`delivered, this`acked,
               this`retryCount, fs
      ensures Valid() && old(fs.history) <= fs.history && old(fs.failures) <= fs.failures
      ensures old(accepted) <= accepted && old(sendErrors) <= sendErrors
      ensures Popped(rounds) == |accepted| - |old(accepted)| + (writeErrors - old(writeErrors))
                                + (overflowDropped - old(overflowDropped))
      ensures Ran(old(Books()), config.batchSize, steps, rounds, fs.failures == old(fs.failures))
      ensures Books() == After(old(Books()), config.batchSize, steps)
      ensures Paced(Turns(steps), Schedule(startMs)) && retryCount == old(retryCount) + Failures(Turns(steps))
      ensures rounds != [] && fs.failures == old(fs.failures) ==> Compact()
      ensures old(delivered) <= delivered
              && DeliveredOrSafe(fs.history, |old(fs.history)|, old(fs.promise), split,
                                 Concat(delivered[|old(delivered)|..]), fs.promise)
    {
      hide Recoverable, CrashSafe, ValidState, Subseq, LogBelow, Selection, SafeSince, Ledger, Concat, OnSchedule,
        Paced, DeliveredOrSafe, Failures, Ran, After, AfterStep, StepFrom, Turns, CrashLeaves, Compact;
      var retryMs: nat, nextFlushMs: nat := config.retryBaseMs, startMs;
      steps, split := [], 0;
      NoTurns(Schedule(startMs));
      RanNothing(old(Books()), config.batchSize);
      NothingDelivered(fs.history, fs.promise);
      OneDelivered(delivered, []);
      assert rounds[..0] == [];
      var r := 0;
      while r < |rounds|
        invariant 0 <= r <= |rounds|
        invariant Valid() && old(fs.history) <= fs.history && old(fs.failures) <= fs.failures
        invariant old(accepted) <= accepted && old(sendErrors) <= sendErrors
        invariant Popped(rounds[..r]) == |accepted| - |old(accepted)| + (writeErrors - old(writeErrors))
                                         + (overflowDropped - old(overflowDropped))
        invariant Ran(old(Books()), config.batchSize, steps, rounds[..r], fs.failures == old(fs.failures))
        invariant Books() == After(old(Books()), config.batchSize, steps)
        invariant OnSchedule(Turns(steps), Schedule(startMs), retryMs, nextFlushMs)
        invariant retryCount == old(retryCount) + Failures(Turns(steps))
        invariant r > 0 && fs.failures == old(fs.failures) ==> Compact()
        invariant old(delivered) <= delivered
        invariant DeliveredOrSafe(fs.history, |old(fs.history)|, old(fs.promise), split,
                                  Concat(delivered[|old(delivered)|..]), fs.promise)
      {
        ghost var history, promise, handed, failures := fs.history, fs.promise, delivered, fs.failures;
        ghost var step, roundSplit;
        retryMs, nextFlushMs, step, roundSplit := OneRound(rounds[r], startMs, retryMs, nextFlushMs, Turns(steps));
        AfterOneMore(old(Books()), config.batchSize, steps, step);
        StepFromWeaker(After(old(Books()), config.batchSize, steps), config.batchSize, step,
                       fs.failures == old(fs.failures));
        RanOneMore(old(Books()), config.batchSize, steps, rounds[..r], failures == old(fs.failures), step,
                   fs.failures == old(fs.failures));
        DeliveredSince(old(delivered), handed, delivered);
        split := DeliveredOrSafeOn(history, fs.history, |old(fs.history)|, old(fs.promise), split,
                                   Concat(handed[|old(delivered)|..]), promise, roundSplit,
                                   Concat(delivered[|handed|..]), fs.promise);
        RoundMore(rounds, r);
        steps := steps + [step];
        r := r + 1;
      }
      assert rounds[..r] == rounds;
      ScheduledIsPaced(Turns(steps), Schedule(startMs), retryMs, nextFlushMs);
    }

    /** The final flushes: flush until nothing is pending or a flush fails. */
    method FlushAll(answers: nat -> bool) returns (ghost oks: seq<bool>, ghost split: nat)
      requires Valid() && (config.batchSize >= 1 || pending == [])
      modifies this`pending, this`current, this`currentSize, this`nextIndex, this`sentEvents, this`sendErrors,
               this`delivered, this`acked, fs
      ensures Valid() && old(fs.history) <= fs.history && old(fs.failures) <= fs.failures
      ensures FlushRun(old(Books()), config.batchSize, answers, oks, fs.failures == old(fs.failures))
      ensures Books() == FlushedBy(old(Books()), config.batchSize, answers, oks)
      ensures pending == [] || (config.batchSize >= 1 && oks != [] && !oks[|oks| - 1])
      ensures fs.failures == old(fs.failures) && old(Compact()) ==> Compact()
      ensures old(delivered) <= delivered
              && DeliveredOrSafe(fs.history, |old(fs.history)|, old(fs.promise), split,
                                 Concat(delivered[|old(delivered)|..]), fs.promise)
    {
      hide Recoverable, CrashSafe, ValidState, Subseq, LogBelow, SafeSince, Ledger, Concat, DeliveredOrSafe, FlushRun,
        FlushedBy, Flushed, CanEnd, CrashLeaves, Compact;
      ghost var b := Books();
      OneDelivered(delivered, []);
      NothingDelivered(fs.history, fs.promise);
      NoFlushes(b, config.batchSize, answers);
      oks, split := [], 0;
      var more, k := true, 0;
      while more && pending != []
        invariant Valid() && old(fs.history) <= fs.history && old(fs.failures) <= fs.failures
        invariant config.batchSize >= 1 || pending == []
        invariant k == |oks| && (oks != [] ==> oks[|oks| - 1] == more) && (oks == [] ==> more)
        invariant Books() == FlushedBy(b, config.batchSize, answers, oks)
        invariant FlushRun(b, config.batchSize, answers, oks, fs.failures == old(fs.failures))
        invariant fs.failures == old(fs.failures) && old(Compact()) ==> Compact()
        invariant old(delivered) <= delivered
        invariant DeliveredOrSafe(fs.history, |old(fs.history)|, old(fs.promise), split,
                                  Concat(delivered[|old(delivered)|..]), fs.promise)
        decreases |pending|, more
      {
        ghost var history, promise, handed, failures := fs.history, fs.promise, delivered, fs.failures;
        ghost var before := Books();
        ghost var outcome, flushSplit;
        more, outcome, flushSplit := FlushPending(answers(k));
        FlushedIs(before, config.batchSize, answers(k), more, outcome, Books(), fs.failures == failures);
        CanEndWeaker(before, config.batchSize, answers(k), more, fs.failures == old(fs.failures));
        FlushOneMore(b, config.batchSize, answers, oks, failures == old(fs.failures), more,
                     fs.failures == old(fs.failures));
        DeliveredSince(old(delivered), handed, delivered);
        split := DeliveredOrSafeOn(history, fs.history, |old(fs.history)|, old(fs.promise), split,
                                   Concat(handed[|old(delivered)|..]), promise, flushSplit,
                                   Concat(delivered[|handed|..]), fs.promise);
        oks, k := oks + [more], k + 1;
      }
    }

    /**
      After the loop: drain once more, then the final flushes. With a batch of zero they are sure to end only if nothing
      can have been kept.
    */
    method Shutdown(queues: seq<seq<QueuedEvent>>, answers: nat -> bool)
      returns (ghost kept: seq<Line>, ghost oks: seq<bool>, ghost split: nat)
      requires Valid() && (config.batchSize >= 1 || (pending == [] && Concat(queues) == []))
      modifies this`pending, this`current, this`currentSize, this`nextIndex, this`accepted, this`acceptedEvents,
               this`writeErrors, this`overflowDropped, this`sentEvents, this`sendErrors, this`delivered, this`acked, fs
      ensures Valid() && old(fs.history) <= fs.history && old(fs.failures) <= fs.failures
      ensures |Concat(queues)| == |kept| + (writeErrors - old(writeErrors)) + (overflowDropped - old(overflowDropped))
      ensures Selection(kept, Concat(queues), fs.failures == old(fs.failures))
      ensures FlushRun(SinkRuns.Drained(old(Books()), kept), config.batchSize, answers, oks,
                       fs.failures == old(fs.failures))
      ensures Books() == FlushedBy(SinkRuns.Drained(old(Books()), kept), config.batchSize, answers, oks)
      ensures pending == [] || (oks != [] && !oks[|oks| - 1])
      ensures pending == [] || sendErrors == old(sendErrors) + 1 || fs.failures > old(fs.failures)
      ensures (forall k :: answers(k)) && fs.failures == old(fs.failures) ==> pending == []
      ensures fs.failures == old(fs.failures) ==> Compact()
      ensures old(delivered) <= delivered
              && DeliveredOrSafe(fs.history, |old(fs.history)|, old(fs.promise), split,
                                 Concat(delivered[|old(delivered)|..]), fs.promise)
    {
      hide Recoverable, CrashSafe, ValidState, Subseq, LogBelow, Selection, SafeSince, Ledger, Concat, DeliveredOrSafe,
        FlushRun, FlushedBy, Flushed, CanEnd, CrashLeaves, Compact;
      OneDelivered(delivered, []);
      kept := DrainQueuesOnce(queues);
      ghost var b, history, promise := Books(), fs.history, fs.promise;
      assert b == SinkRuns.Drained(old(Books()), kept);
      oks, split := FlushAll(answers);
      split := DeliveredOrSafeOn(history, fs.history, |old(fs.history)|, old(fs.promise), 0, [], promise, split,
                                 Concat(delivered[|old(delivered)|..]), fs.promise);
      assert [] + Concat(delivered[|old(delivered)|..]) == Concat(delivered[|old(delivered)|..]);
      SelectionWeaker(kept, Concat(queues), fs.failures == old(fs.failures));
      FlushRunWeaker(b, config.batchSize, answers, oks, fs.failures == old(fs.failures));
      if pending != [] { OnlyTheLastFails(b, config.batchSize, answers, oks, fs.failures == old(fs.failures)); }
    }
  }

  lemma CrashSafeImage(d: DiskState, must: seq<Line>, img: Image)
    requires CrashSafe(d, must) && CrashImage(d, img)
    ensures Subseq(must, Log(img))
  {
  }

  /**
    Crash at any moment, reboot, load: every record the disk had promised to keep is pending again, and so is everything
    else the directory holds; in the order of the log, as long as the names sort like their indices.
  */
  method CrashAndRestart(ghost before: DiskState, ghost must: seq<Line>, image: Image, size: nat, config: SinkConfig)
    returns (sink: NetworkEventSink)
    requires CrashSafe(before, must) && CrashImage(before, image)
    requires forall i :: i in image ==> i < size
    ensures sink.fs.failures == 0 ==> multiset(must) <= multiset(sink.pending) == multiset(Log(image))
    ensures size <= PADDED_LIMIT ==> sink.Valid()
    ensures size <= PADDED_LIMIT && sink.fs.failures == 0 ==>
              sink.pending == Log(image) && Subseq(must, sink.pending) && sink.fs.promise == sink.pending
  {
    hide Recoverable, ValidState, Subseq, LogBelow, Reboot, CrashSafe, CrashImage, Settled, SortByName;
    var fs := new Filesystem(image, size);
    RebootKeepsEverything(image, size);
    sink := new NetworkEventSink(fs, config);
    ghost var listed := sink.LoadWal();
    CrashSafeImage(before, must, image);
    SubseqBag(must, Log(image));
    if size <= PADDED_LIMIT { ShortNames(listed, image); }
  }

  /** What the collector has been credited with is never below what has left the log for good. */
  lemma SentCoversAcknowledged(sink: NetworkEventSink)
    requires sink.Valid()
    ensures |Concat(sink.acked)| <= sink.sentEvents
    ensures |sink.loaded| + sink.acceptedEvents == |Concat(sink.acked)| + |sink.pending|
  {
    SelectionIsShorter(sink.acked, sink.delivered);
    hide Recoverable, Subseq, Concat, LogBelow;
    assert |sink.loaded + sink.accepted| == |Concat(sink.acked) + sink.pending|;
  }
}
