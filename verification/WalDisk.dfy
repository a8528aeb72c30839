/**
  The write-ahead-log directory as the kernel and the platter see it.

  A file has a cached content and a durable prefix of it; a directory entry is live in the cache, but a crash keeps an
  arbitrary subset of the directory operations since the last directory sync. Only `.wal` names are entries here: a
  temporary is a file without an entry, because loading lists nothing else.
 */
module WalDisk {
  import opened Sequences

  type Line = string

  /** home is the segment index whose name, and no other, can lead to this file. */
  datatype File = File(home: nat, cached: seq<Line>, durable: seq<Line>)

  datatype DirOp = Link(index: nat, inode: nat) | Unlink(index: nat)

  datatype DiskState = DiskState(files: seq<File>, stable: map<nat, nat>, unsynced: seq<DirOp>)

  /** What loading sees: the records under each segment index. */
  type Image = map<nat, seq<Line>>

  function ApplyOp(dir: map<nat, nat>, op: DirOp): map<nat, nat> {
    match op
    case Link(index, inode) => dir[index := inode]
    case Unlink(index) => dir - {index}
  }

  function ApplyOps(dir: map<nat, nat>, ops: seq<DirOp>): map<nat, nat> {
    if ops == [] then dir else ApplyOp(ApplyOps(dir, ops[..|ops| - 1]), ops[|ops| - 1])
  }

  function Live(d: DiskState): map<nat, nat> {
    ApplyOps(d.stable, d.unsynced)
  }

  ghost predicate ValidState(d: DiskState) {
    && (forall i :: i in d.stable ==> d.stable[i] < |d.files| && d.files[d.stable[i]].home == i)
    && (forall op :: op in d.unsynced && op.Link? ==> op.inode < |d.files| && d.files[op.inode].home == op.index)
    && (forall n :: 0 <= n < |d.files| ==> d.files[n].durable <= d.files[n].cached)
  }

  function Entry(dir: map<nat, nat>, i: nat): Option<nat> {
    if i in dir then Some(dir[i]) else None
  }

  /** Operations on other indices leave an entry as it is. */
  lemma {:induction false} UntouchedEntry(dir: map<nat, nat>, ops: seq<DirOp>, i: nat)
    requires forall op :: op in ops ==> op.index != i
    ensures Entry(ApplyOps(dir, ops), i) == Entry(dir, i)
  {
    if ops != [] {
      assert ops[|ops| - 1] in ops;
      UntouchedEntry(dir, ops[..|ops| - 1], i);
    }
  }

  // ---- Crashes ----

  function Kept(ops: seq<DirOp>, keep: seq<bool>): seq<DirOp>
    requires |keep| == |ops|
  {
    if ops == [] then []
    else
      var rest := Kept(ops[..|ops| - 1], keep[..|ops| - 1]);
      if keep[|ops| - 1] then rest + [ops[|ops| - 1]] else rest
  }

  /** A crash keeps the durable records, some of the others, and perhaps part of the next line, read as a record. */
  ghost predicate Torn(f: File, c: seq<Line>) {
    exists k :: |f.durable| <= k <= |f.cached| && TornAt(f, c, k)
  }

  ghost predicate TornAt(f: File, c: seq<Line>, k: nat)
    requires k <= |f.cached|
  {
    c == f.cached[..k] || (k < |f.cached| && |c| == k + 1 && c[..k] == f.cached[..k])
  }

  ghost predicate ImageOf(d: DiskState, dir: map<nat, nat>, img: Image) {
    && img.Keys == dir.Keys
    && forall i :: i in dir ==> dir[i] < |d.files| && Torn(d.files[dir[i]], img[i])
  }

  /** What a crash in state d may leave: any subset of the unsynced directory operations, any torn contents. */
  ghost predicate CrashImage(d: DiskState, img: Image) {
    exists keep: seq<bool> :: |keep| == |d.unsynced| && ImageOf(d, ApplyOps(d.stable, Kept(d.unsynced, keep)), img)
  }

  /** The cached contents: what a restarted process sees when the machine stays up. */
  function LiveView(d: DiskState): Image {
    map i | i in Live(d) && Live(d)[i] < |d.files| :: d.files[Live(d)[i]].cached
  }

  lemma {:induction false} AppliedInodes(d: DiskState, ops: seq<DirOp>)
    requires ValidState(d) && forall op :: op in ops ==> op in d.unsynced
    ensures forall i :: i in ApplyOps(d.stable, ops) ==> Possibly(d, i, ApplyOps(d.stable, ops)[i])
    ensures forall i :: i !in ApplyOps(d.stable, ops) ==> MayLack(d, i)
  {
    if ops != [] {
      AppliedInodes(d, ops[..|ops| - 1]);
      assert ops[|ops| - 1] in ops;
    }
  }

  lemma LiveInodes(d: DiskState)
    requires ValidState(d)
    ensures forall i :: i in Live(d) ==> Possibly(d, i, Live(d)[i])
    ensures forall i :: i !in Live(d) ==> MayLack(d, i)
  {
    AppliedInodes(d, d.unsynced);
  }

  // ---- The same, index by index ----

  ghost predicate MayHold(d: DiskState, i: nat, n: nat) {
    (i in d.stable && d.stable[i] == n) || Link(i, n) in d.unsynced
  }

  ghost predicate MayLack(d: DiskState, i: nat) {
    i !in d.stable || Unlink(i) in d.unsynced
  }

  ghost predicate Possibly(d: DiskState, i: nat, n: nat) {
    MayHold(d, i, n) && n < |d.files| && d.files[n].home == i
  }

  ghost predicate Possible(d: DiskState, i: nat, c: Option<seq<Line>>) {
    match c
    case None => MayLack(d, i)
    case Some(lines) => exists n: nat :: Possibly(d, i, n) && Torn(d.files[n], lines)
  }

  function At(img: Image, i: nat): Option<seq<Line>> {
    if i in img then Some(img[i]) else None
  }

  ghost predicate PossibleBelow(d: DiskState, img: Image, b: nat) {
    forall i :: 0 <= i < b ==> Possible(d, i, At(img, i))
  }

  lemma {:induction false} KeptSubset(ops: seq<DirOp>, keep: seq<bool>)
    requires |keep| == |ops|
    ensures forall op :: op in Kept(ops, keep) ==> op in ops
  {
    if ops != [] { KeptSubset(ops[..|ops| - 1], keep[..|ops| - 1]); }
  }

  lemma CrashImageIsPossible(d: DiskState, img: Image, b: nat)
    requires ValidState(d) && CrashImage(d, img)
    ensures PossibleBelow(d, img, b)
  {
    var keep: seq<bool> :| |keep| == |d.unsynced| && ImageOf(d, ApplyOps(d.stable, Kept(d.unsynced, keep)), img);
    KeptSubset(d.unsynced, keep);
    AppliedInodes(d, Kept(d.unsynced, keep));
  }

  lemma {:induction false} KeepAll(ops: seq<DirOp>)
    ensures Kept(ops, seq(|ops|, _ => true)) == ops
  {
    if ops != [] {
      KeepAll(ops[..|ops| - 1]);
      assert seq(|ops|, _ => true)[..|ops| - 1] == seq(|ops| - 1, _ => true);
    }
  }

  lemma TornCached(f: File)
    requires f.durable <= f.cached
    ensures Torn(f, f.cached)
  {
    assert TornAt(f, f.cached, |f.cached|);
  }

  /** Restarting the process alone is the gentlest crash. */
  lemma LiveViewIsCrashImage(d: DiskState)
    requires ValidState(d)
    ensures CrashImage(d, LiveView(d))
  {
    KeepAll(d.unsynced);
    var keep := seq(|d.unsynced|, _ => true);
    LiveInodes(d);
    forall i | i in Live(d) ensures Torn(d.files[Live(d)[i]], LiveView(d)[i]) { TornCached(d.files[Live(d)[i]]); }
    assert ImageOf(d, ApplyOps(d.stable, Kept(d.unsynced, keep)), LiveView(d));
  }

  // ---- The log in index order ----

  function LogBelow(img: Image, n: nat): seq<Line> {
    if n == 0 then [] else LogBelow(img, n - 1) + (if n - 1 in img then img[n - 1] else [])
  }

  lemma LogBelowNext(img: Image, i: nat)
    ensures LogBelow(img, i + 1) == LogBelow(img, i) + if i in img then img[i] else []
  {
  }

  /** A strict upper bound of a set of indices, tight when the set is not empty. */
  ghost function Top(s: set<nat>): (t: nat)
    ensures forall i :: i in s ==> i < t
    ensures t > 0 ==> t - 1 in s
  {
    if s == {} then 0
    else
      var k :| k in s;
      var rest := Top(s - {k});
      assert forall i :: i in s ==> i == k || i in s - {k};
      if k + 1 >= rest then k + 1 else rest
  }

  ghost function Log(img: Image): seq<Line> {
    LogBelow(img, Top(img.Keys))
  }

  lemma {:induction false} LogBelowPrefix(img: Image, a: nat, b: nat)
    requires a <= b
    ensures LogBelow(img, a) <= LogBelow(img, b)
    decreases b - a
  {
    if a < b { LogBelowPrefix(img, a, b - 1); }
  }

  lemma {:induction false} LogBelowBeyondTop(img: Image, b: nat)
    requires forall i :: i in img ==> i < b
    ensures LogBelow(img, b) == Log(img)
    decreases b
  {
    if b > Top(img.Keys) { LogBelowBeyondTop(img, b - 1); }
  }

  lemma {:induction false} LogBelowAgrees(a: Image, b: Image, n: nat)
    requires forall i :: 0 <= i < n ==> At(a, i) == At(b, i)
    ensures LogBelow(a, n) == LogBelow(b, n)
  {
    if n > 0 {
      assert At(a, n - 1) == At(b, n - 1);
      LogBelowAgrees(a, b, n - 1);
    }
  }

  ghost predicate Weaker(c: Option<seq<Line>>, c': Option<seq<Line>>) {
    c.None? || (c'.Some? && c.value <= c'.value)
  }

  lemma {:induction false} LogBelowGrows(img: Image, img': Image, n: nat)
    requires forall i :: 0 <= i < n ==> Weaker(At(img, i), At(img', i))
    ensures Subseq(LogBelow(img, n), LogBelow(img', n))
  {
    if n > 0 {
      LogBelowGrows(img, img', n - 1);
      assert Weaker(At(img, n - 1), At(img', n - 1));
      var last := if n - 1 in img then img[n - 1] else [];
      var last' := if n - 1 in img' then img'[n - 1] else [];
      SubseqOfPrefix(last, last');
      SubseqAppend(LogBelow(img, n - 1), LogBelow(img', n - 1), last, last');
    }
  }

  // ---- Recoverability ----

  /** Every crash in state d leaves `must`, in order, among the segments below index b. */
  ghost predicate Recoverable(d: DiskState, must: seq<Line>, b: nat) {
    forall img :: PossibleBelow(d, img, b) ==> Subseq(must, LogBelow(img, b))
  }

  lemma RecoverableAfterCrash(d: DiskState, must: seq<Line>, b: nat, img: Image)
    requires ValidState(d) && Recoverable(d, must, b) && CrashImage(d, img)
    ensures Subseq(must, Log(img))
  {
    CrashImageIsPossible(d, img, b);
    var t := Top(img.Keys);
    var top := if t >= b then t else b;
    LogBelowPrefix(img, b, top);
    SubseqOfPrefix(LogBelow(img, b), LogBelow(img, top));
    SubseqTrans(must, LogBelow(img, b), LogBelow(img, top));
    LogBelowBeyondTop(img, top);
  }

  lemma RecoverableLess(d: DiskState, must: seq<Line>, less: seq<Line>, b: nat)
    requires Recoverable(d, must, b) && Subseq(less, must)
    ensures Recoverable(d, less, b)
  {
    forall img | PossibleBelow(d, img, b) ensures Subseq(less, LogBelow(img, b)) {
      SubseqTrans(less, must, LogBelow(img, b));
    }
  }

  /** Below b, whatever a crash in d' can leave contains something a crash in d can leave. */
  ghost predicate Refines(d: DiskState, d': DiskState, b: nat) {
    forall i, c :: 0 <= i < b && Possible(d', i, c) ==> HasWeaker(d, i, c)
  }

  ghost predicate HasWeaker(d: DiskState, i: nat, c: Option<seq<Line>>) {
    exists c0 :: Possible(d, i, c0) && Weaker(c0, c)
  }

  ghost function WeakerChoice(d: DiskState, i: nat, c: Option<seq<Line>>): (c0: Option<seq<Line>>)
    requires HasWeaker(d, i, c)
    ensures Possible(d, i, c0) && Weaker(c0, c)
  {
    var c0 :| Possible(d, i, c0) && Weaker(c0, c);
    c0
  }

  lemma RecoverableStep(d: DiskState, d': DiskState, must: seq<Line>, b: nat)
    requires Recoverable(d, must, b) && Refines(d, d', b)
    ensures Recoverable(d', must, b)
  {
    forall img' | PossibleBelow(d', img', b) ensures Subseq(must, LogBelow(img', b)) {
      assert forall i :: 0 <= i < b ==> HasWeaker(d, i, At(img', i));
      var img: Image := map i: nat | 0 <= i < b && WeakerChoice(d, i, At(img', i)).Some?
                          :: WeakerChoice(d, i, At(img', i)).value;
      assert forall i :: 0 <= i < b ==> At(img, i) == WeakerChoice(d, i, At(img', i));
      assert PossibleBelow(d, img, b);
      LogBelowGrows(img, img', b);
      SubseqTrans(must, LogBelow(img, b), LogBelow(img', b));
    }
  }

  // ---- Filesystem calls, as functions on the state ----

  function AddFile(d: DiskState, home: nat): DiskState {
    d.(files := d.files + [File(home, [], [])])
  }

  function AppendTo(d: DiskState, n: nat, line: Line): DiskState
    requires n < |d.files|
  {
    d.(files := d.files[n := d.files[n].(cached := d.files[n].cached + [line])])
  }

  function FileSynced(d: DiskState, n: nat): DiskState
    requires n < |d.files|
  {
    d.(files := d.files[n := d.files[n].(durable := d.files[n].cached)])
  }

  function AddOp(d: DiskState, op: DirOp): DiskState {
    d.(unsynced := d.unsynced + [op])
  }

  function DirSynced(d: DiskState): DiskState {
    d.(stable := Live(d), unsynced := [])
  }

  lemma LiveAddOp(d: DiskState, op: DirOp)
    ensures Live(AddOp(d, op)) == ApplyOp(Live(d), op)
  {
    assert (d.unsynced + [op])[..|d.unsynced|] == d.unsynced;
  }

  lemma LiveDirSynced(d: DiskState)
    ensures Live(DirSynced(d)) == Live(d)
  {
  }

  ghost predicate SameBelow(img: Image, img': Image, n: nat) {
    forall i :: 0 <= i < n ==> At(img, i) == At(img', i)
  }

  /** New files that no entry leads to are invisible. */
  lemma TemporariesAreInvisible(before: DiskState, d: DiskState)
    requires ValidState(before) && before.files <= d.files && d.stable == before.stable && d.unsynced == before.unsynced
    ensures LiveView(d) == LiveView(before)
  {
    LiveInodes(before);
    assert forall i :: i in Live(before) ==> d.files[Live(before)[i]] == before.files[Live(before)[i]];
  }

  /** Opening segment i for appending, seen from above. */
  function Opened(img: Image, i: nat): Image {
    if i in img then img else img[i := []]
  }

  /** One more line at the end of segment i. */
  function WithLine(img: Image, i: nat, line: Line): Image {
    Opened(img, i)[i := Opened(img, i)[i] + [line]]
  }

  ghost predicate Grown(img: Image, img': Image) {
    forall i :: i in img ==> i in img' && img[i] <= img'[i]
  }

  lemma ViewAppend(d: DiskState, i: nat, line: Line)
    requires ValidState(d) && i in Live(d)
    ensures Live(d)[i] < |d.files| && i in LiveView(d)
    ensures LiveView(AppendTo(d, Live(d)[i], line)) == LiveView(d)[i := LiveView(d)[i] + [line]]
  {
    LiveInodes(d);
    var d' := AppendTo(d, Live(d)[i], line);
    assert Live(d') == Live(d);
  }

  lemma ViewCreate(d: DiskState, i: nat)
    requires ValidState(d)
    ensures LiveView(AddOp(AddFile(d, i), Link(i, |d.files|))) == LiveView(d)[i := []]
  {
    LiveInodes(d);
    LiveAddOp(AddFile(d, i), Link(i, |d.files|));
  }

  lemma AddFileStep(d: DiskState, home: nat, must: seq<Line>, b: nat)
    requires ValidState(d) && Recoverable(d, must, b)
    ensures ValidState(AddFile(d, home)) && Recoverable(AddFile(d, home), must, b)
  {
    var d' := AddFile(d, home);
    forall i, c | 0 <= i < b && Possible(d', i, c) ensures HasWeaker(d, i, c) {
      assert Possible(d, i, c) && Weaker(c, c);
    }
    RecoverableStep(d, d', must, b);
  }

  lemma AppendStep(d: DiskState, n: nat, line: Line, must: seq<Line>, b: nat)
    requires ValidState(d) && n < |d.files| && Recoverable(d, must, b)
    ensures ValidState(AppendTo(d, n, line)) && Recoverable(AppendTo(d, n, line), must, b)
  {
    var d' := AppendTo(d, n, line);
    var f, f' := d.files[n], d'.files[n];
    assert f'.cached[..|f.cached|] == f.cached;
    forall i, c | 0 <= i < b && Possible(d', i, c) ensures HasWeaker(d, i, c) {
      if c.Some? && Possibly(d', i, n) && Torn(f', c.value) {
        assert Possibly(d, i, n);
        var k :| |f'.durable| <= k <= |f'.cached| && TornAt(f', c.value, k);
        if k < |f.cached| {
          assert f'.cached[..k] == f.cached[..k];
          assert TornAt(f, c.value, k);
          assert Possible(d, i, c) && Weaker(c, c);
        } else {
          TornCached(f);
          assert f.cached <= c.value;
          assert Possible(d, i, Some(f.cached)) && Weaker(Some(f.cached), c);
        }
      } else {
        assert Possible(d, i, c) && Weaker(c, c);
      }
    }
    RecoverableStep(d, d', must, b);
  }

  lemma FileSyncStep(d: DiskState, n: nat, must: seq<Line>, b: nat)
    requires ValidState(d) && n < |d.files| && Recoverable(d, must, b)
    ensures ValidState(FileSynced(d, n)) && Recoverable(FileSynced(d, n), must, b)
  {
    var d' := FileSynced(d, n);
    TornCached(d.files[n]);
    forall i, c | 0 <= i < b && Possible(d', i, c) ensures HasWeaker(d, i, c) {
      if c.Some? {
        var m: nat :| Possibly(d', i, m) && Torn(d'.files[m], c.value);
        assert Possibly(d, i, m);
        assert m == n ==> c.value == d.files[n].cached;
      }
      assert Possible(d, i, c) && Weaker(c, c);
    }
    RecoverableStep(d, d', must, b);
  }

  /** A new entry is harmless above b, or where a crash may leave nothing anyway. */
  lemma LinkStep(d: DiskState, k: nat, n: nat, must: seq<Line>, b: nat)
    requires ValidState(d) && Recoverable(d, must, b)
    requires n < |d.files| && d.files[n].home == k && (k >= b || MayLack(d, k))
    ensures ValidState(AddOp(d, Link(k, n))) && Recoverable(AddOp(d, Link(k, n)), must, b)
  {
    var d' := AddOp(d, Link(k, n));
    forall i, c | 0 <= i < b && Possible(d', i, c) ensures HasWeaker(d, i, c) {
      if i == k {
        assert Possible(d, i, None) && Weaker(None, c);
      } else {
        assert Possible(d, i, c) && Weaker(c, c);
      }
    }
    RecoverableStep(d, d', must, b);
  }

  lemma DirSyncStep(d: DiskState, must: seq<Line>, b: nat)
    requires ValidState(d) && Recoverable(d, must, b)
    ensures ValidState(DirSynced(d)) && Recoverable(DirSynced(d), must, b)
  {
    var d' := DirSynced(d);
    LiveInodes(d);
    forall i, c | 0 <= i < b && Possible(d', i, c) ensures HasWeaker(d, i, c) {
      assert Possible(d, i, c) && Weaker(c, c);
    }
    RecoverableStep(d, d', must, b);
  }

  // ---- A published generation ----

  /** Segments first, first + 1, ... hold exactly these chunks whatever crash comes. */
  ghost predicate Published(d: DiskState, first: nat, chunks: seq<seq<Line>>) {
    && (forall j :: 0 <= j < |chunks| ==> PublishedAt(d, first + j, chunks[j]))
    && (forall op :: op in d.unsynced ==> !(first <= op.index < first + |chunks|))
  }

  ghost predicate PublishedAt(d: DiskState, i: nat, chunk: seq<Line>) {
    && i in d.stable && d.stable[i] < |d.files|
    && d.files[d.stable[i]].cached == d.files[d.stable[i]].durable == chunk
  }

  /** Without pending operations and with synced contents, a crash has no choice. */
  lemma SettledIndex(d: DiskState, i: nat, c: Option<seq<Line>>)
    requires forall op :: op in d.unsynced ==> op.index != i
    requires i in d.stable ==> d.stable[i] < |d.files| && d.files[d.stable[i]].durable == d.files[d.stable[i]].cached
    requires Possible(d, i, c)
    ensures c == if i in d.stable then Some(d.files[d.stable[i]].cached) else None
  {
    assert Unlink(i) !in d.unsynced;
    if c.Some? {
      var n: nat :| Possibly(d, i, n) && Torn(d.files[n], c.value);
      assert Link(i, n) !in d.unsynced;
      assert d.files[n].cached[..|d.files[n].cached|] == d.files[n].cached;
    }
  }

  /** Segments first, first + 1, ... of an image hold these chunks. */
  ghost predicate Holds(img: Image, first: nat, chunks: seq<seq<Line>>) {
    forall j :: 0 <= j < |chunks| ==> At(img, first + j) == Some(chunks[j])
  }

  lemma {:induction false} HeldLog(img: Image, first: nat, chunks: seq<seq<Line>>)
    requires Holds(img, first, chunks)
    ensures LogBelow(img, first + |chunks|) == LogBelow(img, first) + Concat(chunks)
  {
    if chunks != [] {
      var j := |chunks| - 1;
      assert Holds(img, first, chunks[..j]);
      HeldLog(img, first, chunks[..j]);
      assert At(img, first + j) == Some(chunks[j]);
      LogBelowNext(img, first + j);
      PlusAssoc(LogBelow(img, first), Concat(chunks[..j]), chunks[j]);
      hide LogBelow, Holds;
    }
  }

  lemma PublishedHolds(d: DiskState, first: nat, chunks: seq<seq<Line>>, img: Image)
    requires Published(d, first, chunks) && PossibleBelow(d, img, first + |chunks|)
    ensures Holds(img, first, chunks)
  {
    forall j | 0 <= j < |chunks| ensures At(img, first + j) == Some(chunks[j]) {
      assert PublishedAt(d, first + j, chunks[j]);
      SettledIndex(d, first + j, At(img, first + j));
    }
  }

  lemma PublishedIsRecoverable(d: DiskState, first: nat, chunks: seq<seq<Line>>)
    requires Published(d, first, chunks)
    ensures Recoverable(d, Concat(chunks), first + |chunks|)
  {
    var b := first + |chunks|;
    forall img | PossibleBelow(d, img, b) ensures Subseq(Concat(chunks), LogBelow(img, b)) {
      PublishedHolds(d, first, chunks, img);
      HeldLog(img, first, chunks);
      SubseqRefl(Concat(chunks));
      SubseqWiden(Concat(chunks), LogBelow(img, first), Concat(chunks), []);
      assert LogBelow(img, first) + Concat(chunks) + [] == LogBelow(img, first) + Concat(chunks);
    }
  }

  // ---- The machine after a crash ----

  function Reboot(img: Image, size: nat): DiskState {
    DiskState(seq(size, i requires 0 <= i => if i in img then File(i, img[i], img[i]) else File(i, [], [])),
              map i | i in img :: i, [])
  }

  /** Nothing is waiting to be synced. */
  ghost predicate Settled(d: DiskState) {
    d.unsynced == [] && forall n :: 0 <= n < |d.files| ==> d.files[n].durable == d.files[n].cached
  }

  lemma SettledIsRecoverable(d: DiskState, b: nat)
    requires ValidState(d) && Settled(d) && forall i :: i in LiveView(d) ==> i < b
    ensures Recoverable(d, Log(LiveView(d)), b)
  {
    var view := LiveView(d);
    LiveInodes(d);
    forall img | PossibleBelow(d, img, b) ensures Subseq(Log(view), LogBelow(img, b)) {
      forall i | 0 <= i < b ensures At(img, i) == At(view, i) {
        SettledIndex(d, i, At(img, i));
      }
      LogBelowAgrees(img, view, b);
      LogBelowBeyondTop(view, b);
      SubseqRefl(Log(view));
    }
  }

  /** After a crash the directory is exactly the image, and all of it is durable. */
  lemma RebootKeepsEverything(img: Image, size: nat)
    requires forall i :: i in img ==> i < size
    ensures var d := Reboot(img, size);
            ValidState(d) && Settled(d) && LiveView(d) == img && Recoverable(d, Log(img), size)
  {
    LiveInodes(Reboot(img, size));
    SettledIsRecoverable(Reboot(img, size), size);
  }
}
