/** A new generation of segments: staged in temporaries, published by renames, and the old one removed. */
module WalGeneration {
  import opened Sequences
  import opened WalDisk
  import opened WalSegments
  import opened WalFilesystem

  datatype Staged = Staged(index: nat, inode: nat, size: nat)

  /** A failed call wrote at most to temporaries: the old files and the directory are as before. */
  ghost predicate OnlyTemporaries(d: DiskState, before: DiskState) {
    && ValidState(d) && d.stable == before.stable && d.unsynced == before.unsynced
    && before.files <= d.files
  }

  /** Fills one temporary with records from `start` on until the limit is reached, and syncs it. */
  method WriteSegment(fs: Filesystem, remaining: seq<Line>, start: nat, index: nat, limit: nat)
    returns (ok: bool, next: nat, inode: nat, size: nat)
    requires fs.Valid() && start <= |remaining|
    modifies fs
    ensures fs.Valid() && fs.Grew() && fs.bound == old(fs.bound)
    ensures ok <==> fs.failures == old(fs.failures)
    ensures OnlyTemporaries(fs.state, old(fs.state))
    ensures ok ==> start <= next <= |remaining| && inode == |old(fs.state).files|
                   && size == Bytes(remaining[start..next])
    ensures ok ==> fs.state.files == old(fs.state).files + [File(index, remaining[start..next], remaining[start..next])]
    ensures ok ==> RoomBeforeLast(remaining[start..next], limit)
    ensures ok && next < |remaining| ==> Full(remaining[start..next], limit)
    ensures ok && start < |remaining| ==> start < next
  {
    hide Recoverable, CrashSafe, ValidState;
    ghost var before := fs.state;
    next, size := start, 0;
    ok, inode := fs.CreateTemporary(index);
    if !ok { return; }
    assert remaining[start..start] == [];
    hide RoomBeforeLast, Full, Bytes, AppendTo, FileSynced;
    NothingYet(limit);
    while next < |remaining| && (size == 0 || limit == 0 || size < limit)
      invariant start <= next <= |remaining|
      invariant fs.Valid() && fs.Grew() && fs.bound == old(fs.bound) && fs.failures == old(fs.failures)
      invariant fs.state == before.(files := before.files + [File(index, remaining[start..next], [])])
      invariant size == Bytes(remaining[start..next])
      invariant RoomBeforeLast(remaining[start..next], limit)
      invariant size == 0 ==> next == start
    {
      ExtendChunk(remaining, start, next, size, limit);
      TemporaryGrows(before, File(index, remaining[start..next], []), remaining[next]);
      ok := fs.Append(inode, remaining[next]);
      if !ok { return; }
      size := size + |remaining[next]| + 2;
      next := next + 1;
    }
    TemporarySyncs(before, File(index, remaining[start..next], []));
    ClosedChunk(remaining[start..next], size, limit, next < |remaining|);
    ok := fs.SyncFile(inode);
  }

  lemma NothingYet(limit: nat)
    ensures Bytes([]) == 0 && RoomBeforeLast([], limit)
  {
  }

  lemma ClosedChunk(chunk: seq<Line>, size: nat, limit: nat, more: bool)
    requires size == Bytes(chunk) && (size == 0 ==> chunk == [])
    ensures more && !(size == 0 || limit == 0 || size < limit) ==> Full(chunk, limit)
  {
  }

  lemma TemporaryGrows(d: DiskState, f: File, line: Line)
    ensures |d.files| < |d.(files := d.files + [f]).files|
    ensures var grown := d.(files := d.files + [f.(cached := f.cached + [line])]);
            AppendTo(d.(files := d.files + [f]), |d.files|, line) == grown && d.files <= grown.files
  {
  }

  lemma TemporarySyncs(d: DiskState, f: File)
    ensures |d.files| < |d.(files := d.files + [f]).files|
    ensures var synced := d.(files := d.files + [f.(durable := f.cached)]);
            FileSynced(d.(files := d.files + [f]), |d.files|) == synced && d.files <= synced.files
  {
  }

  lemma ExtendChunk(remaining: seq<Line>, start: nat, next: nat, size: nat, limit: nat)
    requires start <= next < |remaining| && size == Bytes(remaining[start..next])
    requires size == 0 || limit == 0 || size < limit
    requires size == 0 ==> next == start
    ensures remaining[start..next] + [remaining[next]] == remaining[start..next + 1]
    ensures Bytes(remaining[start..next + 1]) == size + |remaining[next]| + 2
    ensures RoomBeforeLast(remaining[start..next + 1], limit)
  {
    assert remaining[start..next] + [remaining[next]] == remaining[start..next + 1];
    ChunkSnoc(remaining[start..next], remaining[next], limit);
    hide *;
  }

  lemma ChunkSnoc(chunk: seq<Line>, line: Line, limit: nat)
    requires Bytes(chunk) == 0 || limit == 0 || Bytes(chunk) < limit
    ensures Bytes(chunk + [line]) == Bytes(chunk) + |line| + 2 && RoomBeforeLast(chunk + [line], limit)
  {
    assert (chunk + [line])[..|chunk|] == chunk;
    if chunk != [] { assert Bytes(chunk) >= 2; }
  }

  /** Each staged temporary durably holds its chunk. */
  ghost predicate StagedOn(d: DiskState, base: nat, first: nat, staged: seq<Staged>, chunks: seq<seq<Line>>) {
    && |staged| == |chunks|
    && forall j :: 0 <= j < |staged| ==> StagedAt(d, base, first + j, staged[j], chunks[j])
  }

  ghost predicate StagedAt(d: DiskState, base: nat, index: nat, s: Staged, chunk: seq<Line>) {
    && s.index == index && base <= s.inode < |d.files|
    && d.files[s.inode] == File(index, chunk, chunk)
    && s.size == Bytes(chunk)
  }

  ghost predicate GreedySoFar(chunks: seq<seq<Line>>, limit: nat, more: bool) {
    && (forall j :: 0 <= j < |chunks| ==> RoomBeforeLast(chunks[j], limit))
    && (forall j :: 0 <= j < |chunks| && (more || j < |chunks| - 1) ==> Full(chunks[j], limit))
    && (|chunks| > 1 ==> chunks[|chunks| - 1] != [])
  }

  /** Writes the remaining records into temporaries, a segment at a time. */
  method StageGeneration(fs: Filesystem, remaining: seq<Line>, first: nat, limit: nat)
    returns (ok: bool, staged: seq<Staged>, ghost chunks: seq<seq<Line>>)
    requires fs.Valid()
    modifies fs
    ensures fs.Valid() && fs.Grew() && fs.bound == old(fs.bound)
    ensures ok <==> fs.failures == old(fs.failures)
    ensures ValidState(fs.state) && LiveView(fs.state) == LiveView(old(fs.state))
    ensures ok ==> Greedy(chunks, limit) && Concat(chunks) == remaining
    ensures ok ==> StagedOn(fs.state, |old(fs.state).files|, first, staged, chunks)
  {
    hide Recoverable, CrashSafe, ValidState, RoomBeforeLast, Full, LiveView, Bytes;
    ok, staged, chunks := true, [], [];
    ghost var base := |fs.state.files|;
    var next := 0;
    var more := true;
    assert remaining[..0] == [];
    while more
      invariant 0 <= next <= |remaining| && (more <==> |staged| == 0 || next < |remaining|)
      invariant ok && fs.Valid() && fs.Grew() && fs.bound == old(fs.bound) && fs.failures == old(fs.failures)
      invariant OnlyTemporaries(fs.state, old(fs.state)) && LiveView(fs.state) == LiveView(old(fs.state))
      invariant StagedOn(fs.state, base, first, staged, chunks)
      invariant Concat(chunks) == remaining[..next]
      invariant GreedySoFar(chunks, limit, more)
      decreases |remaining| - next, more
    {
      ghost var start := next;
      var inode, size;
      ok, next, inode, size := WriteSegment(fs, remaining, next, first + |staged|, limit);
      TemporariesAreInvisible(old(fs.state), fs.state);
      if !ok { return; }
      ghost var chunk := remaining[start..next];
      ConcatSnoc(chunks, chunk);
      assert remaining[..start] + chunk == remaining[..next];
      staged, chunks := staged + [Staged(first + |staged|, inode, size)], chunks + [chunk];
      more := next < |remaining|;
    }
    assert remaining[..next] == remaining;
  }

  // ---- Publishing ----

  /** Outside [first, first + n) the live directory is as before. */
  ghost predicate SameOutside(live: map<nat, nat>, before: map<nat, nat>, first: nat, n: nat) {
    forall i: nat :: !(first <= i < first + n) ==> (i in live <==> i in before) && (i in live ==> live[i] == before[i])
  }

  lemma OutsideIsVisible(d: DiskState, before: DiskState, first: nat, n: nat)
    requires d.files == before.files && SameOutside(Live(d), Live(before), first, n)
    ensures SameBelow(LiveView(before), LiveView(d), first)
    ensures forall i :: i in LiveView(d) ==> i in LiveView(before) || first <= i < first + n
  {
  }

  lemma PublishedIsVisible(d: DiskState, first: nat, chunks: seq<seq<Line>>)
    requires d.unsynced == [] && Published(d, first, chunks)
    ensures Holds(LiveView(d), first, chunks)
  {
    assert forall j :: 0 <= j < |chunks| ==> PublishedAt(d, first + j, chunks[j]);
  }

  /** The first n staged temporaries have their segment names. */
  ghost predicate LinkedUpTo(live: map<nat, nat>, staged: seq<Staged>, first: nat, n: nat) {
    n <= |staged| && forall s :: first <= s < first + n ==> s in live && live[s] == staged[s - first].inode
  }

  lemma LinkOne(live: map<nat, nat>, before: map<nat, nat>, staged: seq<Staged>, first: nat, i: nat)
    requires i < |staged| && SameOutside(live, before, first, i) && LinkedUpTo(live, staged, first, i)
    requires staged[i].index == first + i
    ensures var after := live[staged[i].index := staged[i].inode];
            SameOutside(after, before, first, i + 1) && LinkedUpTo(after, staged, first, i + 1)
  {
  }

  lemma SameOutsideMore(live: map<nat, nat>, before: map<nat, nat>, first: nat, n: nat, more: nat)
    requires SameOutside(live, before, first, n) && n <= more
    ensures SameOutside(live, before, first, more)
  {
  }

  /** What the next rename may rely on, and what it brings about. */
  lemma RenameNext(before: DiskState, d: DiskState, base: nat, first: nat, staged: seq<Staged>, chunks: seq<seq<Line>>,
                   i: nat)
    requires StagedOn(before, base, first, staged, chunks) && d.files == before.files && i < |staged|
    requires SameOutside(Live(d), Live(before), first, i) && LinkedUpTo(Live(d), staged, first, i)
    ensures |chunks| == |staged| && staged[i].index == first + i
    ensures StagedAt(d, base, staged[i].index, staged[i], chunks[i])
    ensures SameOutside(Live(d), Live(before), first, |staged|)
    ensures var after := Live(d)[staged[i].index := staged[i].inode];
            SameOutside(after, Live(before), first, i + 1) && LinkedUpTo(after, staged, first, i + 1)
  {
    hide StagedOn, StagedAt, Live, SameOutside, LinkedUpTo;
    StagedSame(before, d, base, first, staged, chunks, i);
    LinkOne(Live(d), Live(before), staged, first, i);
    SameOutsideMore(Live(d), Live(before), first, i, |staged|);
  }

  /** One rename of a staged temporary. */
  method RenameOne(fs: Filesystem, s: Staged, ghost base: nat, ghost chunk: seq<Line>) returns (ok: bool)
    requires fs.Valid() && fs.bound <= s.index && StagedAt(fs.state, base, s.index, s, chunk)
    modifies fs
    ensures fs.Valid() && fs.Grew() && fs.bound == old(fs.bound) && fs.state.files == old(fs.state).files
    ensures ok <==> fs.failures == old(fs.failures)
    ensures Live(fs.state) == if ok then Live(old(fs.state))[s.index := s.inode] else Live(old(fs.state))
  {
    hide Recoverable, CrashSafe, ValidState, Live;
    LiveAddOp(fs.state, Link(s.index, s.inode));
    ok := fs.Rename(s.inode, s.index);
  }

  /** Renames the temporaries onto their segment names, in order. */
  method RenameAll(fs: Filesystem, staged: seq<Staged>, ghost base: nat, ghost first: nat, ghost chunks: seq<seq<Line>>)
    returns (ok: bool)
    requires fs.Valid() && fs.bound <= first && StagedOn(fs.state, base, first, staged, chunks)
    modifies fs
    ensures fs.Valid() && fs.Grew() && fs.bound == old(fs.bound)
    ensures ok <==> fs.failures == old(fs.failures)
    ensures fs.state.files == old(fs.state).files && SameOutside(Live(fs.state), Live(old(fs.state)), first, |staged|)
    ensures ok ==> LinkedUpTo(Live(fs.state), staged, first, |staged|)
  {
    var i := 0;
    ghost var before := fs.state;
    hide Recoverable, CrashSafe, ValidState, Live, LiveView, SameOutside, LinkedUpTo, StagedOn, StagedAt;
    NoneRenamed(Live(before), staged, first);
    ok := true;
    while i < |staged|
      invariant 0 <= i <= |staged| && ok
      invariant fs.Valid() && fs.Grew() && fs.bound == old(fs.bound) && fs.failures == old(fs.failures)
      invariant fs.state.files == before.files && SameOutside(Live(fs.state), Live(before), first, i)
      invariant LinkedUpTo(Live(fs.state), staged, first, i)
    {
      RenameNext(before, fs.state, base, first, staged, chunks, i);
      ok := RenameOne(fs, staged[i], base, chunks[i]);
      if !ok { return; }
      i := i + 1;
    }
  }

  lemma NoneRenamed(live: map<nat, nat>, staged: seq<Staged>, first: nat)
    ensures SameOutside(live, live, first, 0) && LinkedUpTo(live, staged, first, 0)
  {
  }

  lemma StagedSame(before: DiskState, d: DiskState, base: nat, first: nat, staged: seq<Staged>, chunks: seq<seq<Line>>,
                   i: nat)
    requires StagedOn(before, base, first, staged, chunks) && d.files == before.files && i < |staged|
    ensures |chunks| == |staged| && staged[i].index == first + i
    ensures StagedAt(d, base, staged[i].index, staged[i], chunks[i])
  {
    assert StagedAt(before, base, first + i, staged[i], chunks[i]);
  }

  /** Once the directory is synced, the staged segments are there whatever happens next. */
  lemma SyncPublishes(d: DiskState, staged: seq<Staged>, base: nat, first: nat, chunks: seq<seq<Line>>)
    requires StagedOn(d, base, first, staged, chunks)
    requires LinkedUpTo(Live(d), staged, first, |staged|)
    ensures Published(DirSynced(d), first, chunks) && LiveView(DirSynced(d)) == LiveView(d)
    ensures Holds(LiveView(d), first, chunks)
  {
    LiveDirSynced(d);
    forall j | 0 <= j < |chunks| ensures PublishedAt(DirSynced(d), first + j, chunks[j]) {
      assert StagedAt(d, base, first + j, staged[j], chunks[j]);
    }
    PublishedIsVisible(DirSynced(d), first, chunks);
  }

  /** Renames the temporaries onto their segment names and syncs the directory. */
  method PublishGeneration(fs: Filesystem, staged: seq<Staged>, ghost base: nat, ghost first: nat,
                           ghost chunks: seq<seq<Line>>)
    returns (ok: bool)
    requires fs.Valid() && fs.bound <= first && StagedOn(fs.state, base, first, staged, chunks)
    modifies fs
    ensures fs.Valid() && fs.Grew() && fs.bound == old(fs.bound)
    ensures ok <==> fs.failures == old(fs.failures)
    ensures SameBelow(LiveView(old(fs.state)), LiveView(fs.state), first)
    ensures forall i :: i in LiveView(fs.state) ==> i in LiveView(old(fs.state)) || first <= i < first + |chunks|
    ensures ok ==> Published(fs.state, first, chunks) && Holds(LiveView(fs.state), first, chunks)
  {
    hide Recoverable, CrashSafe, ValidState;
    ok := RenameAll(fs, staged, base, first, chunks);
    OutsideIsVisible(fs.state, old(fs.state), first, |staged|);
    if ok {
      SyncPublishes(fs.state, staged, base, first, chunks);
      ok := fs.SyncDirectory();
    }
  }

  ghost predicate SubDirectory(live: map<nat, nat>, before: map<nat, nat>) {
    forall i :: i in live ==> i in before && live[i] == before[i]
  }

  lemma RemovalIsVisible(d: DiskState, before: DiskState, first: nat, chunks: seq<seq<Line>>)
    requires d.files == before.files && SubDirectory(Live(d), Live(before)) && Holds(LiveView(before), first, chunks)
    requires forall i :: i in Live(before) && i >= first ==> i in Live(d)
    ensures Holds(LiveView(d), first, chunks)
    ensures forall i :: i in LiveView(d) ==> i in LiveView(before)
  {
    forall j | 0 <= j < |chunks| ensures At(LiveView(d), first + j) == Some(chunks[j]) {
      assert At(LiveView(before), first + j) == Some(chunks[j]);
    }
  }

  /** Removes the listed old segments and syncs the directory; failures leave leftovers. */
  method CleanOldGeneration(fs: Filesystem, old_segments: seq<nat>, ghost first: nat, ghost chunks: seq<seq<Line>>)
    requires fs.Valid() && Published(fs.state, first, chunks) && Holds(LiveView(fs.state), first, chunks)
    requires forall i :: i in old_segments ==> i < first
    requires fs.bound == first + |chunks| && Subseq(fs.promise, Concat(chunks))
    modifies fs
    ensures fs.Valid() && fs.Grew() && fs.bound == old(fs.bound)
    ensures Holds(LiveView(fs.state), first, chunks)
    ensures forall i :: i in LiveView(fs.state) ==> i in LiveView(old(fs.state))
    ensures fs.failures == old(fs.failures) ==>
              && fs.state.unsynced == [] && Published(fs.state, first, chunks)
              && forall i :: i in old_segments ==> i !in LiveView(fs.state)
  {
    var k := 0;
    ghost var before := fs.state;
    assert Cleaned(Live(before), Live(before), first, old_segments, 0, true);
    hide Recoverable, CrashSafe, ValidState, Live, Cleaned, Published;
    while k < |old_segments|
      invariant 0 <= k <= |old_segments|
      invariant fs.Valid() && fs.Grew() && fs.bound == old(fs.bound) && fs.state.files == before.files
      invariant Published(fs.state, first, chunks)
      invariant Cleaned(Live(fs.state), Live(before), first, old_segments, k, fs.failures == old(fs.failures))
    {
      assert old_segments[k] in old_segments;
      CleanOne(Live(fs.state), Live(before), first, old_segments, k, fs.failures == old(fs.failures));
      LiveAddOp(fs.state, Unlink(old_segments[k]));
      var removed := fs.Remove(old_segments[k], first, chunks);
      k := k + 1;
    }
    LiveDirSynced(fs.state);
    PublishedDirSynced(fs.state, first, chunks);
    CleanedIsVisible(fs.state, before, first, chunks, old_segments, fs.failures == old(fs.failures));
    CleanedIsVisible(DirSynced(fs.state), before, first, chunks, old_segments, fs.failures == old(fs.failures));
    var synced := fs.SyncDirectory();
  }

  lemma PublishedDirSynced(d: DiskState, first: nat, chunks: seq<seq<Line>>)
    requires ValidState(d) && Published(d, first, chunks)
    ensures Published(DirSynced(d), first, chunks)
  {
    forall j | 0 <= j < |chunks| ensures PublishedAt(DirSynced(d), first + j, chunks[j]) {
      assert PublishedAt(d, first + j, chunks[j]);
      UntouchedEntry(d.stable, d.unsynced, first + j);
      assert Entry(Live(d), first + j) == Some(d.stable[first + j]);
    }
  }

  /** Only old segments have gone, and without failures all of the first k listed ones have. */
  ghost predicate Cleaned(live: map<nat, nat>, before: map<nat, nat>, first: nat, listed: seq<nat>, k: nat,
                          clean: bool)
  {
    && SubDirectory(live, before) && k <= |listed|
    && (forall i :: i in before && i >= first ==> i in live)
    && (clean ==> forall m :: 0 <= m < k ==> listed[m] !in live)
  }

  lemma CleanOne(live: map<nat, nat>, before: map<nat, nat>, first: nat, listed: seq<nat>, k: nat, clean: bool)
    requires Cleaned(live, before, first, listed, k, clean) && k < |listed| && listed[k] < first
    ensures Cleaned(live - {listed[k]}, before, first, listed, k + 1, clean)
    ensures Cleaned(live, before, first, listed, k + 1, false)
    ensures Cleaned(live - {listed[k]}, before, first, listed, k + 1, false)
  {
  }

  lemma CleanedIsVisible(d: DiskState, before: DiskState, first: nat, chunks: seq<seq<Line>>, listed: seq<nat>,
                         clean: bool)
    requires d.files == before.files && Holds(LiveView(before), first, chunks)
    requires Cleaned(Live(d), Live(before), first, listed, |listed|, clean)
    ensures Holds(LiveView(d), first, chunks)
    ensures forall i :: i in LiveView(d) ==> i in LiveView(before)
    ensures clean ==> forall i :: i in listed ==> i !in LiveView(d)
  {
    RemovalIsVisible(d, before, first, chunks);
  }

  // ---- A whole generation ----

  /** Lists the segments and picks an index above them and at least `next`. */
  method NextGeneration(fs: Filesystem, next: nat) returns (listed: seq<nat>, first: nat)
    requires fs.Valid()
    modifies fs`failures
    ensures fs.Valid() && old(fs.failures) <= fs.failures
    ensures next <= first && (forall i :: i in listed ==> i < first)
    ensures first == next || exists i :: i in listed && first == i + 1
    ensures fs.failures == old(fs.failures) ==> forall i :: i in LiveView(fs.state) ==> i in listed
  {
    listed := fs.List();
    first := next;
    var k := 0;
    while k < |listed|
      invariant 0 <= k <= |listed| && next <= first
      invariant forall m :: 0 <= m < k ==> listed[m] < first
      invariant first == next || exists i :: i in listed && first == i + 1
    {
      if listed[k] + 1 > first {
        first := listed[k] + 1;
        assert listed[k] in listed;
      }
      k := k + 1;
    }
  }

  /** The first half of a rewrite: everything up to and including the directory sync that publishes the generation. */
  method PrepareGeneration(fs: Filesystem, remaining: seq<Line>, nextIndex: nat, limit: nat,
                           ghost must: seq<Line>, ghost b: nat)
    returns (ok: bool, oldSegments: seq<nat>, next: nat, lastSize: nat, ghost first: nat, ghost chunks: seq<seq<Line>>)
    requires fs.Valid() && Recoverable(fs.state, must, b) && b <= nextIndex
    modifies fs
    ensures fs.Valid() && old(fs.history) <= fs.history && old(fs.failures) <= fs.failures
    ensures fs.promise == must && fs.bound == b && fs.from == |old(fs.history)|
    ensures fs.failures == old(fs.failures) ==> ok && forall i :: i in LiveView(old(fs.state)) ==> i in oldSegments
    ensures nextIndex <= first && SameBelow(LiveView(old(fs.state)), LiveView(fs.state), first)
    ensures forall i :: i in oldSegments ==> i < first
    ensures forall i :: i in LiveView(fs.state) ==> i in LiveView(old(fs.state)) || first <= i < first + |chunks|
    ensures ok ==> Greedy(chunks, limit) && Concat(chunks) == remaining
    ensures ok ==> next == first + |chunks| && chunks != [] && lastSize == Bytes(chunks[|chunks| - 1])
    ensures ok ==> Published(fs.state, first, chunks) && Holds(LiveView(fs.state), first, chunks)
  {
    hide Recoverable, CrashSafe, ValidState, Published, Holds;
    fs.Promise(must, b);
    oldSegments, next := NextGeneration(fs, nextIndex);
    first, lastSize := next, 0;
    var staged;
    ok, staged, chunks := StageGeneration(fs, remaining, next, limit);
    if !ok { return; }
    assert StagedAt(fs.state, |old(fs.state).files|, first + |chunks| - 1, staged[|chunks| - 1], chunks[|chunks| - 1]);
    ok := PublishGeneration(fs, staged, |old(fs.state).files|, first, chunks);
    next, lastSize := next + |staged|, staged[|staged| - 1].size;
  }

  lemma {:induction false} EmptyLog(n: nat)
    ensures LogBelow(map[], n) == []
  {
    if n > 0 { EmptyLog(n - 1); }
  }

  /** A generation carries its records in order, and alone in the directory it is the whole log. */
  lemma GenerationIsLogged(view: Image, first: nat, chunks: seq<seq<Line>>)
    requires Holds(view, first, chunks)
    ensures Subseq(Concat(chunks), LogBelow(view, first + |chunks|))
    ensures (forall i :: i in view ==> first <= i < first + |chunks|) ==> Log(view) == Concat(chunks)
  {
    HeldLog(view, first, chunks);
    SubseqRefl(Concat(chunks));
    SubseqWiden(Concat(chunks), LogBelow(view, first), Concat(chunks), []);
    assert LogBelow(view, first) + Concat(chunks) + [] == LogBelow(view, first) + Concat(chunks);
    if forall i :: i in view ==> first <= i < first + |chunks| {
      LogBelowAgrees(view, map[], first);
      EmptyLog(first);
      LogBelowBeyondTop(view, first + |chunks|);
    }
  }

  /** A synced generation alone in a synced directory: every crash leaves exactly its records. */
  lemma CrashLeavesGeneration(d: DiskState, first: nat, chunks: seq<seq<Line>>)
    requires ValidState(d) && d.unsynced == [] && Published(d, first, chunks)
    requires forall i :: i in LiveView(d) ==> first <= i < first + |chunks|
    ensures CrashLeaves(d, Concat(chunks))
  {
    LiveInodes(d);
    assert Live(d) == d.stable;
    forall img | CrashImage(d, img) ensures Log(img) == Concat(chunks) {
      forall i | i in img ensures first <= i < first + |chunks| {
        CrashImageIsPossible(d, img, i + 1);
        assert Possible(d, i, At(img, i)) && (i in d.stable ==> i in LiveView(d));
      }
      CrashImageIsPossible(d, img, first + |chunks|);
      PublishedHolds(d, first, chunks, img);
      GenerationIsLogged(img, first, chunks);
    }
  }

  lemma MustIsPending(must: seq<Line>, pending: seq<Line>, acked: nat)
    requires acked <= |pending| && Subseq(must, pending[acked..])
    ensures Subseq(must, pending)
  {
    SubseqOfSuffix(pending, acked);
    SubseqTrans(must, pending[acked..], pending);
  }

  /** Every disk state from moment `from` on is crash safe for `must`. */
  ghost predicate SafeSince(history: seq<DiskState>, from: nat, must: seq<Line>) {
    forall k :: from <= k < |history| ==> CrashSafe(history[k], must)
  }

  lemma ThroughoutIsSafe(before: seq<DiskState>, history: seq<DiskState>, from: nat, must: seq<Line>, more: seq<Line>)
    requires before <= history && SafeSince(before, from, must) && SafeSince(history, |before|, more)
    requires Subseq(must, more)
    ensures SafeSince(history, from, must)
  {
    forall k | from <= k < |history| ensures CrashSafe(history[k], must) {
      if k < |before| {
        assert history[k] == before[k];
      } else {
        assert CrashSafe(history[k], more);
        forall img | CrashImage(history[k], img) ensures Subseq(must, Log(img)) { SubseqTrans(must, more, Log(img)); }
      }
    }
  }
}
