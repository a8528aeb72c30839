/** One line at the end of the current segment: where it goes, and what a failed write can have left. */
module WalAppend {
  import opened Sequences
  import opened WalDisk
  import opened WalFilesystem

  /** Where append_wal puts the next line: the segment, its size before, and the index counter after. */
  datatype Placement = Placement(index: nat, size: nat, next: nat)

  function Place(current: Option<nat>, size: nat, next: nat, limit: nat): Placement {
    var named := if current.Some? then Placement(current.value, size, next) else Placement(next, size, next + 1);
    if named.size >= limit then Placement(named.next, 0, named.next + 1) else named
  }

  /** A selection of the log below n survives a longer log whose segments only grew. */
  lemma GrowLog(p: seq<Line>, img: Image, img': Image, n: nat, n': nat)
    requires Subseq(p, LogBelow(img, n)) && n <= n'
    requires Grown(img, img')
    ensures Subseq(p, LogBelow(img', n'))
  {
    LogBelowGrows(img, img', n);
    SubseqTrans(p, LogBelow(img, n), LogBelow(img', n));
    LogBelowPrefix(img', n, n');
    SubseqOfPrefix(LogBelow(img', n), LogBelow(img', n'));
    SubseqTrans(p, LogBelow(img', n), LogBelow(img', n'));
  }

  /** What a write into segment i can have left, whether or not it was reported a success. */
  ghost predicate WriteOutcome(view: Image, view': Image, i: nat, line: Line) {
    view' == view || view' == Opened(view, i) || view' == WithLine(view, i, line)
  }

  lemma AfterWrite(p: seq<Line>, view: Image, view': Image, i: nat, line: Line)
    requires Subseq(p, LogBelow(view, i + 1)) && WriteOutcome(view, view', i, line)
    ensures Subseq(p, LogBelow(view', i + 1))
  {
    GrowLog(p, view, view', i + 1, i + 1);
  }

  /** Opens segment i and writes one line at its end. */
  method WriteLine(fs: Filesystem, i: nat, line: Line) returns (ok: bool)
    requires fs.Valid()
    modifies fs
    ensures fs.Valid() && fs.Grew() && fs.bound == old(fs.bound)
    ensures ok <==> fs.failures == old(fs.failures)
    ensures var view, view' := LiveView(old(fs.state)), LiveView(fs.state);
            if ok then view' == WithLine(view, i, line) else WriteOutcome(view, view', i, line)
  {
    var isOpen, inode := fs.OpenForAppend(i);
    if !isOpen { return false; }
    ViewAppend(fs.state, i, line);
    ok := fs.Append(inode, line);
  }

  lemma LineAtTheEnd(p: seq<Line>, img: Image, i: nat, line: Line)
    requires Subseq(p, LogBelow(img, i + 1))
    ensures Subseq(p + [line], LogBelow(WithLine(img, i, line), i + 1))
  {
    var img' := WithLine(img, i, line);
    LogBelowAgrees(img, img', i);
    var here := if i in img then img[i] else [];
    assert LogBelow(img', i + 1) == LogBelow(img, i) + here + [line];
    SubseqRefl([line]);
    SubseqAppend(p, LogBelow(img, i) + here, [line], [line]);
  }
}
