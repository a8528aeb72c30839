/** The filesystem calls of the network sink. Each one may fail, and each one leaves its state in a ghost history. */
module WalFilesystem {
  import opened Sequences
  import opened WalDisk
  import opened WalNames
  import opened WalSegments

  /** Bytes under the given segment names. */
  ghost function BytesUnder(img: Image, s: set<nat>): nat {
    if s == {} then 0
    else
      var i :| i in s;
      (if i in img then Bytes(img[i]) else 0) + BytesUnder(img, s - {i})
  }

  lemma {:induction false} BytesUnderRemove(img: Image, s: set<nat>, i: nat)
    requires i in s
    ensures BytesUnder(img, s) == (if i in img then Bytes(img[i]) else 0) + BytesUnder(img, s - {i})
  {
    var j :| j in s && BytesUnder(img, s) == (if j in img then Bytes(img[j]) else 0) + BytesUnder(img, s - {j});
    if j != i {
      BytesUnderRemove(img, s - {j}, i);
      BytesUnderRemove(img, s - {i}, j);
      assert s - {j} - {i} == s - {i} - {j};
    }
  }

  /** Every crash in state d leaves `must`, in order, in what loading reads. */
  ghost predicate CrashSafe(d: DiskState, must: seq<Line>) {
    forall img :: CrashImage(d, img) ==> Subseq(must, Log(img))
  }

  /** Every crash in state d leaves exactly these records to be read: none is missing, and none comes back. */
  ghost predicate CrashLeaves(d: DiskState, lines: seq<Line>) {
    forall img :: CrashImage(d, img) ==> Log(img) == lines
  }

  lemma RecoverableIsCrashSafe(d: DiskState, must: seq<Line>, b: nat)
    requires ValidState(d) && Recoverable(d, must, b)
    ensures CrashSafe(d, must)
  {
    forall img | CrashImage(d, img) ensures Subseq(must, Log(img)) {
      RecoverableAfterCrash(d, must, b, img);
    }
  }

  /** A segment that is created appears, empty, under its name, and endangers nothing. */
  lemma CreatedStep(s: DiskState, index: nat, must: seq<Line>, b: nat)
    requires ValidState(s) && Recoverable(s, must, b) && index !in Live(s)
    ensures var next := AddOp(AddFile(s, index), Link(index, |s.files|));
            && ValidState(next) && Recoverable(next, must, b) && |next.files| == |s.files| + 1
            && index in Live(next) && Live(next)[index] == |s.files|
            && LiveView(next) == Opened(LiveView(s), index)
  {
    LiveInodes(s);
    ViewCreate(s, index);
    AddFileStep(s, index, must, b);
    LinkStep(AddFile(s, index), index, |s.files|, must, b);
    LiveAddOp(AddFile(s, index), Link(index, |s.files|));
    hide Recoverable, ValidState, Possibly;
  }

  /** Removing a segment below a published generation leaves the generation as it is. */
  lemma UnlinkedStep(s: DiskState, index: nat, first: nat, chunks: seq<seq<Line>>, must: seq<Line>)
    requires ValidState(s) && Published(s, first, chunks) && index < first && Subseq(must, Concat(chunks))
    ensures var next := AddOp(s, Unlink(index));
            ValidState(next) && Published(next, first, chunks) && Recoverable(next, must, first + |chunks|)
  {
    var next := AddOp(s, Unlink(index));
    assert forall j :: 0 <= j < |chunks| ==> PublishedAt(s, first + j, chunks[j]);
    PublishedIsRecoverable(next, first, chunks);
    RecoverableLess(next, Concat(chunks), must, first + |chunks|);
    hide Recoverable, Subseq, Concat;
  }

  lemma OpenedStep(s: DiskState, index: nat)
    requires ValidState(s) && index in Live(s)
    ensures Live(s)[index] < |s.files| && LiveView(s) == Opened(LiveView(s), index)
  {
    LiveInodes(s);
  }

  /**
    `history` holds every state the disk has been in, one entry a call; no method shortens it.
    `promise` is a selection of records that every crash since moment `from` leaves loadable, below segment `bound`.
  */
  class Filesystem {
    var state: DiskState
    ghost var history: seq<DiskState>
    ghost var failures: nat
    ghost var promise: seq<Line>
    ghost var bound: nat
    ghost var from: nat

    ghost predicate Valid()
      reads this
    {
      && ValidState(state) && Recoverable(state, promise, bound) && from <= |history|
      && forall k :: from <= k < |history| ==> CrashSafe(history[k], promise)
    }

    /** What no call does: forget a state or a failure, or give up the promise. */
    twostate predicate Grew()
      reads this
    {
      && old(history) <= history && old(failures) <= failures
      && promise == old(promise) && from == old(from)
    }

    /** How a call that was one filesystem operation ends. */
    twostate predicate Became(next: DiskState)
      reads this
    {
      Valid() && Grew() && state == next && bound == old(bound)
    }

    constructor (image: Image, size: nat)
      requires forall i :: i in image ==> i < size
      ensures Valid() && state == Reboot(image, size) && history == [state]
      ensures promise == Log(image) && bound == size && from == 0 && failures == 0
    {
      state := Reboot(image, size);
      history := [Reboot(image, size)];
      promise, bound, from, failures := Log(image), size, 0, 0;
      new;
      RebootKeepsEverything(image, size);
      RecoverableIsCrashSafe(state, promise, bound);
    }

    ghost method Remember()
      requires ValidState(state) && Recoverable(state, promise, bound) && from <= |history|
      requires forall k :: from <= k < |history| ==> CrashSafe(history[k], promise)
      modifies this`history
      ensures Valid() && history == old(history) + [state]
    {
      RecoverableIsCrashSafe(state, promise, bound);
      history := history + [state];
    }

    /** Starts watching another selection of records, from the present moment on. */
    ghost method Promise(must: seq<Line>, b: nat)
      requires Valid() && Recoverable(state, must, b)
      modifies this`promise, this`bound, this`from
      ensures Valid() && promise == must && bound == b && from == |history|
    {
      promise, bound, from := must, b, |history|;
    }

    /** directory_iterator with an ignored error code: the entries come in any order, and an error cuts them short. */
    method List() returns (indices: seq<nat>)
      requires Valid()
      modifies this`failures
      ensures old(failures) <= failures
      ensures forall i :: i in indices ==> i in Live(state)
      ensures Distinct(indices)
      ensures failures == old(failures) ==> forall i :: i in Live(state) ==> i in indices
    {
      indices := [];
      var rest := Live(state).Keys;
      while rest != {}
        invariant rest <= Live(state).Keys
        invariant forall i :: i in indices ==> i in Live(state) && i !in rest
        invariant forall i :: i in Live(state) ==> i in indices || i in rest
        invariant Distinct(indices)
      {
        if * {
          failures := failures + 1;
          return;
        }
        var i :| i in rest;
        rest := rest - {i};
        indices := indices + [i];
      }
    }

    /** wal_bytes: the sizes of the listed segments; a listing error cuts the sum short. */
    method SegmentBytes() returns (total: nat)
      requires Valid()
      modifies this`failures
      ensures old(failures) <= failures
      ensures total <= BytesUnder(LiveView(state), LiveView(state).Keys)
      ensures failures == old(failures) ==> total == BytesUnder(LiveView(state), LiveView(state).Keys)
    {
      total := 0;
      LiveInodes(state);
      ghost var img := LiveView(state);
      var rest := Live(state).Keys;
      while rest != {}
        invariant failures == old(failures) && rest <= Live(state).Keys == img.Keys
        invariant total + BytesUnder(img, rest) == BytesUnder(img, img.Keys)
      {
        if * {
          failures := failures + 1;
          return;
        }
        var i :| i in rest;
        BytesUnderRemove(img, rest, i);
        total := total + Bytes(state.files[Live(state)[i]].cached);
        rest := rest - {i};
      }
    }

    /** Reads one segment to its end; an error cuts it short, or keeps it from being opened. */
    method Read(index: nat) returns (lines: seq<Line>)
      requires Valid() && index in Live(state)
      modifies this`failures
      ensures old(failures) <= failures
      ensures index in LiveView(state) && lines <= LiveView(state)[index]
      ensures failures == old(failures) ==> lines == LiveView(state)[index]
    {
      LiveInodes(state);
      lines := [];
      var content := state.files[Live(state)[index]].cached;
      while |lines| < |content|
        invariant lines <= content && failures == old(failures)
      {
        if * {
          failures := failures + 1;
          return;
        }
        lines := lines + [content[|lines|]];
      }
    }

    /** Opens a new temporary for the segment that will be called `index`. */
    method CreateTemporary(index: nat) returns (ok: bool, inode: nat)
      requires Valid()
      modifies this
      ensures ok ==> Became(AddFile(old(state), index)) && inode == |old(state).files| && failures == old(failures)
      ensures !ok ==> Became(old(state)) && failures > old(failures)
    {
      ok, inode := *, |state.files|;
      if ok {
        AddFileStep(state, index, promise, bound);
        state := AddFile(state, index);
      } else {
        failures := failures + 1;
      }
      Remember();
    }

    /** Opens a segment for appending, creating its name when there is none. */
    method OpenForAppend(index: nat) returns (ok: bool, inode: nat)
      requires Valid()
      modifies this
      ensures !ok ==> Became(old(state)) && failures > old(failures)
      ensures ok ==> Valid() && Grew() && bound == old(bound) && failures == old(failures)
      ensures ok ==> index in Live(state) && inode == Live(state)[index] && inode < |state.files|
      ensures ok ==> LiveView(state) == Opened(LiveView(old(state)), index)
    {
      hide Recoverable, CrashSafe, ValidState, LiveView, Opened;
      ok, inode := *, 0;
      if !ok {
        failures := failures + 1;
      } else if index in Live(state) {
        OpenedStep(state, index);
        inode := Live(state)[index];
      } else {
        CreatedStep(state, index, promise, bound);
        inode := |state.files|;
        state := AddOp(AddFile(state, index), Link(index, inode));
      }
      Remember();
    }

    /** Writes one whole line; a reported failure may or may not have written it. */
    method Append(inode: nat, line: Line) returns (ok: bool)
      requires Valid() && inode < |state.files|
      modifies this
      ensures ok ==> Became(AppendTo(old(state), inode, line)) && failures == old(failures)
      ensures !ok ==> failures > old(failures) && (Became(AppendTo(old(state), inode, line)) || Became(old(state)))
    {
      ok := *;
      var written: bool := *;
      if ok || written {
        AppendStep(state, inode, line, promise, bound);
        state := AppendTo(state, inode, line);
      }
      if !ok { failures := failures + 1; }
      Remember();
    }

    /** flush, close and fdatasync of a temporary. */
    method SyncFile(inode: nat) returns (ok: bool)
      requires Valid() && inode < |state.files|
      modifies this
      ensures ok ==> Became(FileSynced(old(state), inode)) && failures == old(failures)
      ensures !ok ==> Became(old(state)) && failures > old(failures)
    {
      ok := *;
      if ok {
        FileSyncStep(state, inode, promise, bound);
        state := FileSynced(state, inode);
      } else {
        failures := failures + 1;
      }
      Remember();
    }

    /** rename of a temporary onto its segment name, at or above every segment the promise relies on. */
    method Rename(inode: nat, index: nat) returns (ok: bool)
      requires Valid() && inode < |state.files| && state.files[inode].home == index && bound <= index
      modifies this
      ensures ok ==> Became(AddOp(old(state), Link(index, inode))) && failures == old(failures)
      ensures !ok ==> Became(old(state)) && failures > old(failures)
    {
      ok := *;
      if ok {
        LinkStep(state, index, inode, promise, bound);
        state := AddOp(state, Link(index, inode));
      } else {
        failures := failures + 1;
      }
      Remember();
    }

    /** remove of an old segment, below a generation that already carries the promise. */
    method Remove(index: nat, ghost first: nat, ghost chunks: seq<seq<Line>>) returns (ok: bool)
      requires Valid() && Published(state, first, chunks) && index < first
      requires Subseq(promise, Concat(chunks)) && bound == first + |chunks|
      modifies this
      ensures ok ==> Became(AddOp(old(state), Unlink(index))) && failures == old(failures)
      ensures !ok ==> Became(old(state)) && failures > old(failures)
      ensures Published(state, first, chunks)
    {
      hide Recoverable, CrashSafe, ValidState, Published, Subseq, Concat;
      ok := *;
      if ok {
        UnlinkedStep(state, index, first, chunks, promise);
        state := AddOp(state, Unlink(index));
      } else {
        failures := failures + 1;
      }
      Remember();
    }

    method SyncDirectory() returns (ok: bool)
      requires Valid()
      modifies this
      ensures ok ==> Became(DirSynced(old(state))) && failures == old(failures)
      ensures !ok ==> Became(old(state)) && failures > old(failures)
    {
      ok := *;
      if ok {
        DirSyncStep(state, promise, bound);
        state := DirSynced(state);
      } else {
        failures := failures + 1;
      }
      Remember();
    }
  }
}
