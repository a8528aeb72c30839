/** The sliding window over a process's resident set, against keeping every sample for ever. */
module MemoryWindow {
  import opened Sequences

  datatype MemorySample = MemorySample(atMs: nat, rss: nat)

  predicate Sorted(h: seq<MemorySample>) {
    forall i, j :: 0 <= i < j < |h| ==> h[i].atMs <= h[j].atMs
  }

  predicate Old(s: MemorySample, nowMs: nat, windowMs: nat) {
    nowMs >= s.atMs + windowMs
  }

  /** The latest sample that is at least a window old. */
  function LatestOld(full: seq<MemorySample>, nowMs: nat, windowMs: nat): (r: Option<MemorySample>)
    ensures r.Some? ==> r.value in full && nowMs - r.value.atMs >= windowMs
    ensures r.None? <==> forall i :: 0 <= i < |full| ==> nowMs - full[i].atMs < windowMs
  {
    if full == [] then None
    else if Old(full[|full| - 1], nowMs, windowMs) then Some(full[|full| - 1])
    else
      var r := LatestOld(full[..|full| - 1], nowMs, windowMs);
      assert forall i :: 0 <= i < |full| - 1 ==> full[..|full| - 1][i] == full[i];
      r
  }

  /** Nothing later in the list is old: this is what makes it the latest. */
  lemma {:induction false} LatestOldIsLatest(full: seq<MemorySample>, k: nat, nowMs: nat, windowMs: nat)
    requires k < |full| && Old(full[k], nowMs, windowMs)
    requires forall i :: k < i < |full| ==> !Old(full[i], nowMs, windowMs)
    ensures LatestOld(full, nowMs, windowMs) == Some(full[k])
  {
    if k < |full| - 1 {
      LatestOldIsLatest(full[..|full| - 1], k, nowMs, windowMs);
    }
  }

  /**
    The deque is the tail of everything sampled: in time order, only its front may be a window old when the newest
    sample is taken, and what has been trimmed was older than a front that is old itself.
  */
  ghost predicate Trimmed(history: seq<MemorySample>, full: seq<MemorySample>, windowMs: nat) {
    && history != [] && |history| <= |full| && history == full[|full| - |history|..]
    && Sorted(full)
    && var newest := full[|full| - 1].atMs;
    && (forall i :: 0 < i < |history| ==> !Old(history[i], newest, windowMs))
    && (|history| < |full| ==> Old(history[0], newest, windowMs))
  }

  /** push_back, then pop_front while the second sample is at least a window old. */
  method PushAndTrim(history: seq<MemorySample>, s: MemorySample, windowMs: nat, ghost full: seq<MemorySample>)
    returns (after: seq<MemorySample>)
    requires history == full == [] || Trimmed(history, full, windowMs)
    requires full != [] ==> full[|full| - 1].atMs <= s.atMs
    ensures Trimmed(after, full + [s], windowMs)
  {
    ghost var whole := full + [s];
    PushStarts(history, full, s, windowMs);
    after := history + [s];
    ghost var k := |whole| - |after|;
    while |after| > 1 && s.atMs >= after[1].atMs + windowMs
      invariant after != [] && 0 <= k < |whole| && after == whole[k..]
      invariant k > 0 ==> Old(whole[k], s.atMs, windowMs)
      decreases |after|
    {
      assert after[1] == whole[k + 1] && after[1..] == whole[k + 1..];
      after, k := after[1..], k + 1;
    }
    TrimEnds(whole, k, windowMs);
  }

  lemma PushStarts(history: seq<MemorySample>, full: seq<MemorySample>, s: MemorySample, windowMs: nat)
    requires history == full == [] || Trimmed(history, full, windowMs)
    requires full != [] ==> full[|full| - 1].atMs <= s.atMs
    ensures Sorted(full + [s]) && |history| <= |full|
    ensures var k := |full| - |history|;
            history + [s] == (full + [s])[k..] && (k > 0 ==> Old((full + [s])[k], s.atMs, windowMs))
  {
    assert forall i :: 0 <= i < |full| ==> full[i].atMs <= s.atMs;
    if full != [] { assert history[0] == full[|full| - |history|]; }
  }

  lemma TrimEnds(whole: seq<MemorySample>, k: nat, windowMs: nat)
    requires Sorted(whole) && k < |whole|
    requires k > 0 ==> Old(whole[k], whole[|whole| - 1].atMs, windowMs)
    requires k + 1 < |whole| ==> !Old(whole[k + 1], whole[|whole| - 1].atMs, windowMs)
    ensures Trimmed(whole[k..], whole, windowMs)
  {
  }

  /** For a positive window the front of the deque answers for the whole past; for an empty one nothing ever does. */
  lemma FrontAnswers(history: seq<MemorySample>, full: seq<MemorySample>, windowMs: nat)
    requires Trimmed(history, full, windowMs)
    ensures var newest := full[|full| - 1].atMs;
            (if |history| > 1 && Old(history[0], newest, windowMs) then Some(history[0]) else None)
            == if windowMs > 0 then LatestOld(full, newest, windowMs) else None
  {
    var newest := full[|full| - 1].atMs;
    var k := |full| - |history|;
    assert history[0] == full[k] && history[|history| - 1] == full[|full| - 1];
    if windowMs > 0 {
      forall i | k < i < |full| ensures !Old(full[i], newest, windowMs) {
        assert full[i] == history[i - k];
      }
      if Old(history[0], newest, windowMs) {
        LatestOldIsLatest(full, k, newest, windowMs);
      }
    }
  }

  /** One sample joins the deque; its front, if old, is the sample to measure growth from. */
  method Extend(history: seq<MemorySample>, s: MemorySample, windowMs: nat, ghost full: seq<MemorySample>)
    returns (after: seq<MemorySample>, base: Option<MemorySample>)
    requires history == full == [] || Trimmed(history, full, windowMs)
    requires full != [] ==> full[|full| - 1].atMs <= s.atMs
    ensures Trimmed(after, full + [s], windowMs)
    ensures base == if windowMs > 0 then LatestOld(full + [s], s.atMs, windowMs) else None
  {
    after := PushAndTrim(history, s, windowMs, full);
    FrontAnswers(after, full + [s], windowMs);
    base := if |after| > 1 && s.atMs >= after[0].atMs + windowMs then Some(after[0]) else None;
  }
}
