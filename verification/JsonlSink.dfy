/** The JSON-lines sink: writing, rotating, and the rate-limited sync of critical events. */
module JsonlSink {
  import opened Events
  import opened FsyncLimiter

  datatype SinkConfig = SinkConfig(criticalFsync: bool, maxFsyncPerMinute: nat, rotateBytes: nat, summary: bool)

  function Criticals(events: seq<Event>): nat {
    if events == [] then 0
    else Criticals(events[..|events| - 1]) + if events[|events| - 1].level == Critical then 1 else 0
  }

  // ---- What the system answers ----

  /** To open_next_file: whether the files open, whether the first one was there before, and its size. */
  datatype OpenAnswers = OpenAnswers(opens: bool, existed: bool, size: nat, summaryOpens: bool)

  /** To fsync_if_allowed, and how long after the last reading of the clock it asks. */
  datatype SyncAnswers = SyncAnswers(flushes: bool, passedMs: nat, opens: bool, syncs: bool, directoryOpens: bool,
                                     directorySyncs: bool)
  {
    predicate Sync(newFile: bool) {
      opens && syncs && (newFile ==> directoryOpens && directorySyncs)
    }
  }

  /** To write_event as a whole, for a line of so many bytes. */
  datatype Answers = Answers(lineBytes: nat, open: OpenAnswers, writes: bool, summaryWrites: bool, sync: SyncAnswers,
                             rotate: OpenAnswers)

  /** fsync_count_, fsync_failures_ and fsync_rate_limited_. */
  datatype SyncCounts = SyncCounts(synced: nat, failed: nat, limited: nat) {
    function Total(): nat { synced + failed + limited }

    /** One request further: the flush may fail, the limiter may hold it back, and the sync may fail. */
    function Counting(flushed: bool, admitted: bool, success: bool): SyncCounts {
      if !flushed then this.(failed := failed + 1)
      else if !admitted then this.(limited := limited + 1)
      else if success then this.(synced := synced + 1)
      else this.(failed := failed + 1)
    }
  }

  /** The times of the requests that reached the limiter, and of those it let through. */
  datatype SyncLog = SyncLog(requests: seq<nat>, attempts: seq<nat>) {
    function Next(nowMs: nat, admitted: bool): SyncLog {
      SyncLog(requests + [nowMs], if admitted then attempts + [nowMs] else attempts)
    }
  }

  /** The limiter stands where these requests have left it. */
  ghost predicate Limited(startMs: nat, count: nat, limit: nat, log: SyncLog, clockMs: nat) {
    && Limiter(startMs, count) == LimiterAfter(limit, log.requests) && log.attempts == Attempts(limit, log.requests)
    && Monotone(log.requests) && (log.requests != [] ==> log.requests[|log.requests| - 1] <= clockMs)
  }

  lemma LimitedNext(startMs: nat, count: nat, limit: nat, log: SyncLog, clockMs: nat, nowMs: nat)
    requires Limited(startMs, count, limit, log, clockMs) && clockMs <= nowMs
    ensures startMs <= nowMs
    ensures var l := Limiter(startMs, count);
            var next := After(l, limit, nowMs);
            Limited(next.startMs, next.count, limit, log.Next(nowMs, Admits(l, limit, nowMs)), nowMs)
  {
    assert (log.requests + [nowMs])[..|log.requests|] == log.requests;
    assert log.attempts + [] == log.attempts;
    LimitsAlways(limit, log.requests);
    hide Limits;
  }

  /** The window rolls over when it is a minute old, and admits a limited number of requests. */
  method Admit(startMs: nat, count: nat, limit: nat, nowMs: nat) returns (start: nat, counted: nat, admitted: bool)
    requires startMs <= nowMs
    ensures Limiter(start, counted) == After(Limiter(startMs, count), limit, nowMs)
    ensures admitted == Admits(Limiter(startMs, count), limit, nowMs)
  {
    start, counted := startMs, count;
    if nowMs - start >= MINUTE_MS {
      start := nowMs;
      counted := 0;
    }
    if counted >= limit { return start, counted, false; }
    counted, admitted := counted + 1, true;
  }

  class JsonlEventSink {
    const config: SinkConfig
    var isOpen: bool
    var currentSize: nat
    var needsDirectorySync: bool
    var windowStartMs: nat
    var inWindow: nat
    var writtenEvents: nat
    var writeErrors: nat
    var rotatedFiles: nat
    var fsyncCount: nat
    var fsyncFailures: nat
    var fsyncRateLimited: nat
    var summaryOpen: bool

    /** The latest reading of the monotonic clock. */
    var clockMs: nat

    ghost var log: SyncLog
    /** The events handed to write_event, those written, and how many of those in the current file are on disk. */
    ghost var handed: nat
    ghost var written: seq<Event>
    ghost var inFile: nat
    ghost var durable: nat
    ghost var entryDurable: bool

    function Counts(): SyncCounts
      reads this
    {
      SyncCounts(fsyncCount, fsyncFailures, fsyncRateLimited)
    }

    /** The file part of the state. */
    ghost predicate FileValid()
      reads this
    {
      && durable <= inFile && (isOpen && !needsDirectorySync ==> entryDurable)
      && writtenEvents == |written|
      && handed - |written| <= writeErrors && |written| <= handed
    }

    ghost predicate Valid()
      reads this
    {
      && FileValid()
      && Limited(windowStartMs, inWindow, config.maxFsyncPerMinute, log, clockMs)
      && Counts().Total() == if config.criticalFsync then Criticals(written) else 0
    }

    constructor (config: SinkConfig)
      ensures Valid() && this.config == config && written == [] && log == SyncLog([], []) && handed == 0
    {
      this.config := config;
      isOpen, currentSize, needsDirectorySync, windowStartMs, inWindow := false, 0, false, 0, 0;
      writtenEvents, writeErrors, rotatedFiles, fsyncCount, fsyncFailures, fsyncRateLimited := 0, 0, 0, 0, 0, 0;
      summaryOpen := false;
      clockMs, log, handed, written, inFile, durable, entryDurable := 0, SyncLog([], []), 0, [], 0, 0, false;
    }

    /** Whether the summary stream is open after open_next_file. */
    function SummaryReopened(was: bool, answers: OpenAnswers): bool {
      if config.summary then answers.summaryOpens && !was else was
    }

    /** Whether it is when the line is to be written, and how many errors that has cost. */
    function SummaryAtWrite(wasOpen: bool, was: bool, answers: OpenAnswers): (bool, nat) {
      if wasOpen then (was, 0)
      else
        var open := SummaryReopened(was, answers);
        (open, if config.summary && !open then 1 else 0)
    }

    /** open_next_file. A summary stream that is still open cannot be opened again: that is an error, and closes it. */
    method OpenNextFile(answers: OpenAnswers) returns (ok: bool)
      requires FileValid()
      modifies this`isOpen, this`currentSize, this`needsDirectorySync, this`summaryOpen, this`writeErrors,
               this`inFile, this`durable, this`entryDurable
      ensures FileValid() && isOpen == ok == answers.opens && inFile == durable == 0
      ensures currentSize == (if ok then answers.size else 0) && needsDirectorySync == (ok && !answers.existed)
      ensures summaryOpen == SummaryReopened(old(summaryOpen), answers)
      ensures writeErrors == old(writeErrors) + if config.summary && !summaryOpen then 1 else 0
    {
      ok := answers.opens;
      isOpen := ok;
      currentSize := if ok then answers.size else 0;
      needsDirectorySync := ok && !answers.existed;
      inFile, durable, entryDurable := 0, 0, answers.existed;
      if config.summary {
        summaryOpen := answers.summaryOpens && !summaryOpen;
        if !summaryOpen { writeErrors := writeErrors + 1; }
      }
    }

    /** The system calls of fsync_if_allowed: sync the data, and the directory if the file is new. */
    method SyncCurrent(answers: SyncAnswers) returns (ok: bool)
      requires FileValid() && isOpen
      modifies this`needsDirectorySync, this`durable, this`entryDurable
      ensures FileValid() && (ok ==> durable == inFile && entryDurable && !needsDirectorySync)
      ensures var data := answers.opens && answers.syncs;
              && (ok <==> data && (!old(needsDirectorySync) || (answers.directoryOpens && answers.directorySyncs)))
              && ok == answers.Sync(old(needsDirectorySync)) && durable == (if data then inFile else old(durable))
              && needsDirectorySync == (old(needsDirectorySync) && !ok)
    {
      if !answers.opens || !answers.syncs { return false; }
      durable := inFile;
      if needsDirectorySync {
        if !answers.directoryOpens || !answers.directorySyncs { return false; }
        entryDurable := true;
        needsDirectorySync := false;
      }
      return true;
    }

    /**
      fsync_if_allowed: a critical event is counted exactly once, as synced, failed or held back; only a request whose
      flush went well reaches the limiter, and only a success means that everything written to the file is on disk.
    */
    method FsyncIfAllowed(level: Level, answers: SyncAnswers)
      requires FileValid() && isOpen
      requires Limited(windowStartMs, inWindow, config.maxFsyncPerMinute, log, clockMs)
      modifies this`needsDirectorySync, this`windowStartMs, this`inWindow, this`fsyncCount, this`fsyncFailures,
               this`fsyncRateLimited, this`clockMs, this`log, this`durable, this`entryDurable
      ensures FileValid()
      ensures Limited(windowStartMs, inWindow, config.maxFsyncPerMinute, log, clockMs)
      ensures var asks := config.criticalFsync && level == Critical;
              var nowMs := old(clockMs) + answers.passedMs;
              var admitted := Admits(Limiter(old(windowStartMs), old(inWindow)), config.maxFsyncPerMinute, nowMs);
              var success := answers.Sync(old(needsDirectorySync));
              && log == (if asks && answers.flushes then old(log).Next(nowMs, admitted) else old(log))
              && Counts() == (if asks then old(Counts()).Counting(answers.flushes, admitted, success)
                              else old(Counts()))
              && (asks && answers.flushes && admitted && success ==> durable == inFile && entryDurable)
              && fsyncCount == old(fsyncCount) + (if asks && answers.flushes && admitted && success then 1 else 0)
              && fsyncRateLimited == old(fsyncRateLimited) + (if asks && answers.flushes && !admitted then 1 else 0)
              && fsyncFailures == old(fsyncFailures)
                                  + (if asks && (!answers.flushes || (admitted && !success)) then 1 else 0)
    {
      hide Limited;
      if !config.criticalFsync || level != Critical { return; }
      if !answers.flushes {
        fsyncFailures := fsyncFailures + 1;
        return;
      }
      var admitted := RequestSync(answers.passedMs);
      if !admitted {
        fsyncRateLimited := fsyncRateLimited + 1;
        return;
      }
      var ok := SyncCurrent(answers);
      if ok { fsyncCount := fsyncCount + 1; } else { fsyncFailures := fsyncFailures + 1; }
    }

    /** The limiter's part of fsync_if_allowed. */
    method RequestSync(passedMs: nat) returns (admitted: bool)
      requires Limited(windowStartMs, inWindow, config.maxFsyncPerMinute, log, clockMs)
      modifies this`windowStartMs, this`inWindow, this`clockMs, this`log
      ensures Limited(windowStartMs, inWindow, config.maxFsyncPerMinute, log, clockMs)
      ensures clockMs == old(clockMs) + passedMs && log == old(log).Next(clockMs, admitted)
      ensures admitted == Admits(Limiter(old(windowStartMs), old(inWindow)), config.maxFsyncPerMinute, clockMs)
      ensures Limiter(windowStartMs, inWindow)
           == After(Limiter(old(windowStartMs), old(inWindow)), config.maxFsyncPerMinute, clockMs)
    {
      var now := clockMs + passedMs;
      LimitedNext(windowStartMs, inWindow, config.maxFsyncPerMinute, log, clockMs, now);
      hide Limited, SyncLog.Next, Admits, After;
      windowStartMs, inWindow, admitted := Admit(windowStartMs, inWindow, config.maxFsyncPerMinute, now);
      log, clockMs := log.Next(now, admitted), now;
    }

    /** rotate_if_needed. */
    method RotateIfNeeded(answers: OpenAnswers)
      requires FileValid() && isOpen
      modifies this`isOpen, this`currentSize, this`needsDirectorySync, this`summaryOpen, this`writeErrors,
               this`rotatedFiles, this`inFile, this`durable, this`entryDurable
      ensures FileValid() && writeErrors >= old(writeErrors)
      ensures if old(currentSize) >= config.rotateBytes
              then && rotatedFiles == old(rotatedFiles) + 1 && isOpen == answers.opens && inFile == durable == 0
                   && currentSize == (if isOpen then answers.size else 0)
                   && needsDirectorySync == (isOpen && !answers.existed)
                   && summaryOpen == SummaryReopened(false, answers)
                   && writeErrors == old(writeErrors) + (if config.summary && !summaryOpen then 1 else 0)
              else && isOpen && summaryOpen == old(summaryOpen) && writeErrors == old(writeErrors)
                   && rotatedFiles == old(rotatedFiles) && currentSize == old(currentSize)
                   && durable == old(durable) && inFile == old(inFile) && needsDirectorySync == old(needsDirectorySync)
    {
      if currentSize < config.rotateBytes { return; }
      isOpen, summaryOpen := false, false;
      rotatedFiles := rotatedFiles + 1;
      var ok := OpenNextFile(answers);
    }

    /** write_summary: a failed write closes the summary and is an error. */
    method WriteSummary(writes: bool)
      modifies this`summaryOpen, this`writeErrors
      ensures var fails := config.summary && old(summaryOpen) && !writes;
              && summaryOpen == (old(summaryOpen) && !fails)
              && writeErrors == old(writeErrors) + (if fails then 1 else 0)
    {
      if !config.summary || !summaryOpen { return; }
      if !writes {
        writeErrors := writeErrors + 1;
        summaryOpen := false;
      }
    }

    /** The first half of write_event: the line is in the file, or the event is lost and counted as an error. */
    method WriteLine(e: Event, answers: Answers) returns (ok: bool)
      requires FileValid()
      modifies this`isOpen, this`currentSize, this`needsDirectorySync, this`summaryOpen, this`writeErrors,
               this`writtenEvents, this`handed, this`written, this`inFile, this`durable, this`entryDurable
      ensures FileValid() && handed == old(handed) + 1 && written == old(written) + (if ok then [e] else [])
      ensures ok == isOpen == ((old(isOpen) || answers.open.opens) && answers.writes)
      ensures ok ==> currentSize == (if old(isOpen) then old(currentSize) else answers.open.size) + answers.lineBytes
      ensures ok ==> inFile == (if old(isOpen) then old(inFile) else 0) + 1
      ensures ok ==> needsDirectorySync == if old(isOpen) then old(needsDirectorySync) else !answers.open.existed
      ensures var (open, errors) := SummaryAtWrite(old(isOpen), old(summaryOpen), answers.open);
              var fails := ok && config.summary && open && !answers.summaryWrites;
              && summaryOpen == (open && !fails)
              && writeErrors == old(writeErrors) + errors + (if !ok || fails then 1 else 0)
    {
      if !isOpen {
        var opens := OpenNextFile(answers.open);
        if !opens {
          writeErrors, handed := writeErrors + 1, handed + 1;
          return false;
        }
      }
      ok := answers.writes;
      if !ok {
        writeErrors, handed := writeErrors + 1, handed + 1;
        isOpen := false;
        return false;
      }
      currentSize := currentSize + answers.lineBytes;
      WriteSummary(answers.summaryWrites);
      handed, writtenEvents, written, inFile := handed + 1, writtenEvents + 1, written + [e], inFile + 1;
    }

    /** write_event: rotating afterwards, and counting what a critical event's sync came to. */
    method WriteEvent(e: Event, answers: Answers) returns (ok: bool)
      requires Valid()
      modifies this
      ensures Valid() && handed == old(handed) + 1 && written == old(written) + (if ok then [e] else [])
      ensures ok == ((old(isOpen) || answers.open.opens) && answers.writes)
      ensures !ok ==> writeErrors > old(writeErrors) && !isOpen
      ensures var (open, errors) := SummaryAtWrite(old(isOpen), old(summaryOpen), answers.open);
              var fails := ok && config.summary && open && !answers.summaryWrites;
              var size := (if old(isOpen) then old(currentSize) else answers.open.size) + answers.lineBytes;
              !ok || size < config.rotateBytes ==>
                && isOpen == ok && summaryOpen == (open && !fails) && rotatedFiles == old(rotatedFiles)
                && writeErrors == old(writeErrors) + errors + (if !ok || fails then 1 else 0)
                && (ok ==> currentSize == size)
      ensures var size := (if old(isOpen) then old(currentSize) else answers.open.size) + answers.lineBytes;
              ok && size >= config.rotateBytes ==>
                && rotatedFiles == old(rotatedFiles) + 1 && isOpen == answers.rotate.opens
                && currentSize == (if isOpen then answers.rotate.size else 0)
                && needsDirectorySync == (isOpen && !answers.rotate.existed)
                && summaryOpen == (config.summary && answers.rotate.summaryOpens)
                && writeErrors == old(writeErrors)
                                  + SummaryAtWrite(old(isOpen), old(summaryOpen), answers.open).1
                                  + (if config.summary && SummaryAtWrite(old(isOpen), old(summaryOpen), answers.open).0
                                        && !answers.summaryWrites then 1 else 0)
                                  + (if config.summary && !answers.rotate.summaryOpens then 1 else 0)
      ensures var asks := ok && config.criticalFsync && e.level == Critical;
              var nowMs := old(clockMs) + answers.sync.passedMs;
              var admitted := Admits(Limiter(old(windowStartMs), old(inWindow)), config.maxFsyncPerMinute, nowMs);
              var newFile := if old(isOpen) then old(needsDirectorySync) else !answers.open.existed;
              && log == (if asks && answers.sync.flushes then old(log).Next(nowMs, admitted) else old(log))
              && Counts() == (if asks then old(Counts()).Counting(answers.sync.flushes, admitted,
                                                                  answers.sync.Sync(newFile))
                              else old(Counts()))
    {
      CriticalsSnoc(written, e);
      hide Limited, FileValid, Criticals, Admits, After, SyncLog.Next, SyncAnswers.Sync;
      ok := WriteLine(e, answers);
      if ok {
        FsyncIfAllowed(e.level, answers.sync);
        RotateIfNeeded(answers.rotate);
      } else {
        assert written == old(written);
      }
    }
  }

  /**
    A write fails while the summary is open, and the next one succeeds in a new file: the summary ends up closed, at the
    cost of an error, although the system would have opened it.
  */
  method SummaryIsLost(sink: JsonlEventSink, first: Event, second: Event, failing: Answers, good: Answers)
    requires sink.Valid() && sink.config.summary && sink.isOpen && sink.summaryOpen && !failing.writes
    requires good.open.opens && good.open.summaryOpens && good.writes
    requires good.open.size + good.lineBytes < sink.config.rotateBytes
    modifies sink
    ensures sink.Valid() && sink.isOpen && !sink.summaryOpen
    ensures sink.written == old(sink.written) + [second] && sink.writeErrors == old(sink.writeErrors) + 2
  {
    hide JsonlEventSink.Valid;
    var ok := sink.WriteEvent(first, failing);
    ok := sink.WriteEvent(second, good);
  }

  /** In any half-open minute a sink lets at most twice the configured number of syncs through. */
  lemma SyncsAreLimited(sink: JsonlEventSink, x: int)
    requires sink.Valid()
    ensures InMinute(sink.log.attempts, x) <= 2 * sink.config.maxFsyncPerMinute
  {
    AtMostTwicePerMinute(sink.config.maxFsyncPerMinute, sink.log.requests, x);
  }

  lemma CriticalsSnoc(events: seq<Event>, e: Event)
    ensures Criticals(events + [e]) == Criticals(events) + if e.level == Critical then 1 else 0
  {
    assert (events + [e])[..|events|] == events;
  }
}
