/** Whatever is possible segment by segment is possible in one crash: recoverability is exact. */
module WalCrash {
  import opened Sequences
  import opened WalDisk

  /** The entry that an operation leaves under its index. */
  function Left(op: DirOp): Option<nat> {
    match op
    case Link(_, inode) => Some(inode)
    case Unlink(_) => None
  }

  // ---- Crashes that keep at most one operation an index ----

  /** Which operation is kept for an index, by its position. */
  type Picks = map<nat, nat>

  predicate Picked(ops: seq<DirOp>, picks: Picks, p: nat)
    requires p < |ops|
  {
    ops[p].index in picks && picks[ops[p].index] == p
  }

  function KeepPicked(ops: seq<DirOp>, picks: Picks): (keep: seq<bool>)
    ensures |keep| == |ops|
  {
    seq(|ops|, p requires 0 <= p < |ops| => Picked(ops, picks, p))
  }

  /** The entry of index i afterwards. */
  function PickedEntry(dir: map<nat, nat>, ops: seq<DirOp>, picks: Picks, i: nat): Option<nat> {
    if i in picks && picks[i] < |ops| && ops[picks[i]].index == i then Left(ops[picks[i]]) else Entry(dir, i)
  }

  lemma ApplyOpEntry(dir: map<nat, nat>, op: DirOp, i: nat)
    ensures Entry(ApplyOp(dir, op), i) == if op.index == i then Left(op) else Entry(dir, i)
  {
  }

  lemma {:induction false} KeptEntry(dir: map<nat, nat>, ops: seq<DirOp>, picks: Picks, i: nat)
    ensures Entry(ApplyOps(dir, Kept(ops, KeepPicked(ops, picks))), i) == PickedEntry(dir, ops, picks, i)
  {
    if ops != [] {
      var n := |ops| - 1;
      var init, keep := ops[..n], KeepPicked(ops, picks);
      KeptEntry(dir, init, picks, i);
      assert keep[..n] == KeepPicked(init, picks);
      var rest := Kept(init, keep[..n]);
      KeptMore(dir, rest, ops[n]);
      ApplyOpEntry(ApplyOps(dir, rest), ops[n], i);
      hide ApplyOps, ApplyOp, Entry, Left, KeepPicked;
    }
  }

  lemma KeptMore(dir: map<nat, nat>, rest: seq<DirOp>, op: DirOp)
    ensures ApplyOps(dir, rest + [op]) == ApplyOp(ApplyOps(dir, rest), op)
  {
    assert (rest + [op])[..|rest|] == rest;
  }

  // ---- Reaching a possible outcome ----

  /** With this operation kept, or none, index i ends up holding c. */
  ghost predicate Fits(d: DiskState, i: nat, c: Option<seq<Line>>, pick: Option<nat>) {
    && (pick.Some? ==> pick.value < |d.unsynced| && d.unsynced[pick.value].index == i)
    && var entry := if pick.Some? then Left(d.unsynced[pick.value]) else Entry(d.stable, i);
       if c.None? then entry == None
       else entry.Some? && entry.value < |d.files| && Torn(d.files[entry.value], c.value)
  }

  lemma PossibleFits(d: DiskState, i: nat, c: Option<seq<Line>>)
    requires Possible(d, i, c)
    ensures exists pick :: Fits(d, i, c, pick)
  {
    if c.None? {
      if i !in d.stable {
        assert Fits(d, i, c, None);
      } else {
        var p: nat :| p < |d.unsynced| && d.unsynced[p] == Unlink(i);
        assert Fits(d, i, c, Some(p));
      }
    } else {
      var n: nat :| Possibly(d, i, n) && Torn(d.files[n], c.value);
      if i in d.stable && d.stable[i] == n {
        assert Fits(d, i, c, None);
      } else {
        var p: nat :| p < |d.unsynced| && d.unsynced[p] == Link(i, n);
        assert Fits(d, i, c, Some(p));
      }
    }
  }

  ghost function Pick(d: DiskState, i: nat, c: Option<seq<Line>>): (pick: Option<nat>)
    requires Possible(d, i, c)
    ensures Fits(d, i, c, pick)
  {
    PossibleFits(d, i, c);
    var pick :| Fits(d, i, c, pick);
    pick
  }

  ghost function PicksFor(d: DiskState, img: Image, b: nat): Picks
    requires PossibleBelow(d, img, b)
  {
    map i: nat | 0 <= i < b && Pick(d, i, At(img, i)).Some? :: Pick(d, i, At(img, i)).value
  }

  lemma PickedFits(d: DiskState, img: Image, b: nat, i: nat)
    requires PossibleBelow(d, img, b)
    ensures var entry := PickedEntry(d.stable, d.unsynced, PicksFor(d, img, b), i);
            if i >= b then entry == Entry(d.stable, i)
            else if i !in img then entry == None
            else entry.Some? && entry.value < |d.files| && Torn(d.files[entry.value], img[i])
  {
    if i < b { assert Fits(d, i, At(img, i), Pick(d, i, At(img, i))); }
  }

  /** Every combination of possible outcomes below b is what some crash leaves there. */
  lemma Reached(d: DiskState, img: Image, b: nat) returns (crashed: Image)
    requires ValidState(d) && PossibleBelow(d, img, b)
    ensures CrashImage(d, crashed) && LogBelow(crashed, b) == LogBelow(img, b)
  {
    var keep := KeepPicked(d.unsynced, PicksFor(d, img, b));
    var dir := ApplyOps(d.stable, Kept(d.unsynced, keep));
    forall i: nat
      ensures if i >= b then Entry(dir, i) == Entry(d.stable, i)
              else if i !in img then Entry(dir, i) == None
              else Entry(dir, i).Some? && Entry(dir, i).value < |d.files| && Torn(d.files[dir[i]], img[i])
    {
      KeptEntry(d.stable, d.unsynced, PicksFor(d, img, b), i);
      PickedFits(d, img, b, i);
    }
    hide Torn, ApplyOps, Kept, KeepPicked, PicksFor, PossibleBelow, CrashImage;
    crashed := CrashedAs(d, dir, img, b);
    assert ImageOf(d, dir, crashed);
    CrashedIs(d, keep, crashed);
  }

  lemma CrashedIs(d: DiskState, keep: seq<bool>, img: Image)
    requires |keep| == |d.unsynced| && ImageOf(d, ApplyOps(d.stable, Kept(d.unsynced, keep)), img)
    ensures CrashImage(d, img)
  {
  }

  lemma CrashedAs(d: DiskState, dir: map<nat, nat>, img: Image, b: nat) returns (crashed: Image)
    requires ValidState(d)
    requires forall i: nat ::
               if i >= b then Entry(dir, i) == Entry(d.stable, i)
               else if i !in img then Entry(dir, i) == None
               else Entry(dir, i).Some? && Entry(dir, i).value < |d.files| && Torn(d.files[dir[i]], img[i])
    ensures ImageOf(d, dir, crashed) && LogBelow(crashed, b) == LogBelow(img, b)
  {
    forall i | i in dir ensures dir[i] < |d.files| && (i < b ==> i in img && Torn(d.files[dir[i]], img[i])) {
      assert Entry(dir, i) == Some(dir[i]);
    }
    crashed := map i | i in dir :: if i < b then img[i] else d.files[dir[i]].cached;
    forall i | i in dir ensures Torn(d.files[dir[i]], crashed[i]) {
      if i >= b { TornCached(d.files[dir[i]]); }
    }
    forall i: nat | i < b ensures At(crashed, i) == At(img, i) {
      assert i in dir <==> Entry(dir, i).Some?;
    }
    LogBelowAgrees(crashed, img, b);
  }

  /** Recoverable means exactly that every crash leaves the records, in order, below segment b. */
  lemma RecoverableExactly(d: DiskState, must: seq<Line>, b: nat)
    requires ValidState(d)
    ensures Recoverable(d, must, b) <==> forall img :: CrashImage(d, img) ==> Subseq(must, LogBelow(img, b))
  {
    if Recoverable(d, must, b) {
      forall img | CrashImage(d, img) ensures Subseq(must, LogBelow(img, b)) { CrashImageIsPossible(d, img, b); }
    }
    if forall img :: CrashImage(d, img) ==> Subseq(must, LogBelow(img, b)) {
      forall img | PossibleBelow(d, img, b) ensures Subseq(must, LogBelow(img, b)) {
        var crashed := Reached(d, img, b);
      }
    }
  }
}
