/** Reading the log back: segments in the order of their sorted names, against the log in index order. */
module WalLoading {
  import opened Sequences
  import opened WalNames
  import opened WalDisk
  import opened WalFilesystem

  function ReadAll(img: Image, order: seq<nat>): seq<Line> {
    if order == [] then []
    else
      var last := order[|order| - 1];
      ReadAll(img, order[..|order| - 1]) + (if last in img then img[last] else [])
  }

  function MaxOf(xs: seq<nat>): (m: nat)
    ensures forall x :: x in xs ==> x <= m
    ensures m in xs || m == 0
  {
    if xs == [] then 0
    else
      var init, last := xs[..|xs| - 1], xs[|xs| - 1];
      assert xs == init + [last];
      if last > MaxOf(init) then last else MaxOf(init)
  }

  lemma ReadNothing(img: Image)
    ensures ReadAll(img, []) == [] && MaxOf([]) == 0 && Subseq<Line>([], [])
  {
  }

  lemma ReadOneMore(img: Image, order: seq<nat>, k: nat)
    requires k < |order|
    ensures ReadAll(img, order[..k + 1]) == ReadAll(img, order[..k]) + if order[k] in img then img[order[k]] else []
    ensures MaxOf(order[..k + 1]) == if order[k] > MaxOf(order[..k]) then order[k] else MaxOf(order[..k])
  {
    assert order[..k + 1][..k] == order[..k];
  }

  /** One segment more, read whole or in part. */
  lemma ReadFurther(img: Image, order: seq<nat>, k: nat, lines: seq<Line>, more: seq<Line>)
    requires k < |order| && order[k] in img && more <= img[order[k]] && Subseq(lines, ReadAll(img, order[..k]))
    ensures Subseq(lines + more, ReadAll(img, order[..k + 1]))
    ensures ReadAll(img, order[..k + 1]) == ReadAll(img, order[..k]) + img[order[k]]
    ensures MaxOf(order[..k + 1]) == if order[k] > MaxOf(order[..k]) then order[k] else MaxOf(order[..k])
  {
    hide ReadAll, MaxOf, Subseq;
    ReadOneMore(img, order, k);
    SubseqOfPrefix(more, img[order[k]]);
    SubseqAppend(lines, ReadAll(img, order[..k]), more, img[order[k]]);
  }

  lemma MaxOfPermuted(a: seq<nat>, b: seq<nat>)
    requires forall x :: x in a <==> x in b
    ensures MaxOf(a) == MaxOf(b)
  {
    assert MaxOf(a) in a ==> MaxOf(a) in b;
    assert MaxOf(b) in b ==> MaxOf(b) in a;
  }

  /** Reads the listed segments in the order of their sorted names. */
  method ReadSegments(fs: Filesystem) returns (ghost listed: seq<nat>, lines: seq<Line>, maxIndex: nat)
    requires fs.Valid()
    modifies fs`failures
    ensures fs.Valid() && old(fs.failures) <= fs.failures
    ensures Distinct(listed) && (set i | i in listed) <= LiveView(fs.state).Keys
    ensures fs.failures == old(fs.failures) ==> (set i | i in listed) == LiveView(fs.state).Keys
    ensures Subseq(lines, ReadAll(LiveView(fs.state), SortByName(listed))) && maxIndex == MaxOf(listed)
    ensures fs.failures == old(fs.failures) ==> lines == ReadAll(LiveView(fs.state), SortByName(listed))
  {
    hide Recoverable, CrashSafe, SortByName, ReadAll, MaxOf, Subseq;
    ghost var view := LiveView(fs.state);
    LiveInodes(fs.state);
    var names := fs.List();
    listed := names;
    var sorted := SortByName(names);
    SortKeepsMembers(names);
    lines, maxIndex := [], 0;
    var k := 0;
    ghost var failures := fs.failures;
    ReadNothing(view);
    assert sorted[..0] == [];
    while k < |sorted|
      invariant 0 <= k <= |sorted|
      invariant fs.Valid() && fs.failures >= failures && maxIndex == MaxOf(sorted[..k])
      invariant Subseq(lines, ReadAll(view, sorted[..k]))
      invariant fs.failures == failures ==> lines == ReadAll(view, sorted[..k])
    {
      assert sorted[k] in sorted;
      maxIndex := if sorted[k] > maxIndex then sorted[k] else maxIndex;
      var more := fs.Read(sorted[k]);
      ReadFurther(view, sorted, k, lines, more);
      lines := lines + more;
      k := k + 1;
    }
    assert sorted[..k] == sorted;
    MaxOfPermuted(names, sorted);
  }

  /** The bound below which reading `order` has read everything it will. */
  function ReadBound(order: seq<nat>): nat {
    if order == [] then 0 else order[|order| - 1] + 1
  }

  lemma AscendingInit(order: seq<nat>)
    requires Ascending(order) && order != []
    ensures var init, last := order[..|order| - 1], order[|order| - 1];
            Ascending(init) && order == init + [last] && ReadBound(init) <= last
            && forall i :: i in init ==> i < ReadBound(init)
  {
  }

  lemma {:induction false} LogBelowGap(img: Image, a: nat, b: nat)
    requires a <= b && forall i :: a <= i < b ==> i !in img
    ensures LogBelow(img, a) == LogBelow(img, b)
    decreases b - a
  {
    if a < b { LogBelowGap(img, a, b - 1); }
  }

  lemma ReadNext(img: Image, order: seq<nat>)
    requires order != []
    ensures var last := order[|order| - 1];
            ReadAll(img, order) == ReadAll(img, order[..|order| - 1]) + if last in img then img[last] else []
  {
  }

  /** Reading in index order reads a selection of the log... */
  lemma {:induction false} ReadAscending(img: Image, order: seq<nat>)
    requires Ascending(order)
    ensures Subseq(ReadAll(img, order), LogBelow(img, ReadBound(order)))
  {
    if order != [] {
      var init, last := order[..|order| - 1], order[|order| - 1];
      AscendingInit(order);
      ReadAscending(img, init);
      var here := if last in img then img[last] else [];
      hide LogBelow, ReadAll, Subseq;
      LogBelowNext(img, last);
      ReadNext(img, order);
      LogBelowPrefix(img, ReadBound(init), last);
      SubseqOfPrefix(LogBelow(img, ReadBound(init)), LogBelow(img, last));
      SubseqTrans(ReadAll(img, init), LogBelow(img, ReadBound(init)), LogBelow(img, last));
      SubseqRefl(here);
      SubseqAppend(ReadAll(img, init), LogBelow(img, last), here, here);
    }
  }

  /** ...and reading every segment reads all of it. */
  lemma {:induction false} ReadEverything(img: Image, order: seq<nat>)
    requires Ascending(order) && forall i :: i in img && i < ReadBound(order) ==> i in order
    ensures ReadAll(img, order) == LogBelow(img, ReadBound(order))
  {
    if order != [] {
      var init, last := order[..|order| - 1], order[|order| - 1];
      AscendingInit(order);
      ReadEverything(img, init);
      LogBelowGap(img, ReadBound(init), last);
    }
  }

  lemma BelowReadBound(order: seq<nat>)
    requires Ascending(order)
    ensures forall i :: i in order ==> i < ReadBound(order)
  {
    if order != [] { AscendingInit(order); }
  }

  /** Below one million, loading reads a selection of the log in order, and a complete listing reads all of it. */
  lemma LoadedIsLogged(img: Image, listed: seq<nat>)
    requires Short(listed) && Distinct(listed)
    ensures Subseq(ReadAll(img, SortByName(listed)), LogBelow(img, MaxOf(listed) + 2))
    ensures img.Keys == (set i | i in listed) ==>
              ReadAll(img, SortByName(listed)) == Log(img) && forall i :: i in img ==> i < MaxOf(listed) + 2
  {
    var order, n := SortByName(listed), MaxOf(listed) + 2;
    SortIsAscending(listed);
    SortKeepsMembers(listed);
    MaxOfPermuted(listed, order);
    ReadAscending(img, order);
    var b := ReadBound(order);
    assert b <= n by { if order != [] { assert order[|order| - 1] in order; } }
    LogBelowPrefix(img, b, n);
    SubseqOfPrefix(LogBelow(img, b), LogBelow(img, n));
    SubseqTrans(ReadAll(img, order), LogBelow(img, b), LogBelow(img, n));
    if img.Keys == set i | i in listed {
      ReadEverything(img, order);
      BelowReadBound(order);
      LogBelowBeyondTop(img, b);
    }
  }

  /** What was read, even with errors, is a selection of the log below the index after the highest. */
  lemma LoadedPending(img: Image, listed: seq<nat>, pending: seq<Line>)
    requires Short(listed) && Distinct(listed) && Subseq(pending, ReadAll(img, SortByName(listed)))
    ensures Subseq(pending, LogBelow(img, MaxOf(listed) + 2))
    ensures img.Keys == (set i | i in listed) && pending == ReadAll(img, SortByName(listed)) ==>
              pending == Log(img) && forall i :: i in img ==> i < MaxOf(listed) + 2
  {
    LoadedIsLogged(img, listed);
    SubseqTrans(pending, ReadAll(img, SortByName(listed)), LogBelow(img, MaxOf(listed) + 2));
  }

  // ---- Whatever the order of the names: nothing is lost, nothing invented ----

  lemma {:induction false} DistinctCounts(xs: seq<nat>)
    ensures Distinct(xs) <==> forall x :: multiset(xs)[x] <= 1
  {
    if xs != [] {
      var init, last := xs[..|xs| - 1], xs[|xs| - 1];
      assert xs == init + [last];
      DistinctCounts(init);
      assert last in init <==> last in multiset(init);
      if Distinct(xs) {
        assert last !in init;
      } else if Distinct(init) {
        assert exists j :: 0 <= j < |init| && init[j] == last;
        assert multiset(xs)[last] == multiset(init)[last] + 1;
      } else {
        var x :| multiset(init)[x] > 1;
        assert multiset(xs)[x] >= multiset(init)[x];
      }
    }
  }

  lemma SortIsDistinct(listed: seq<nat>)
    requires Distinct(listed)
    ensures Distinct(SortByName(listed))
  {
    DistinctCounts(listed);
    DistinctCounts(SortByName(listed));
  }

  /** The segments with these indices. */
  function Only(img: Image, order: seq<nat>): Image {
    map i | i in img && i in order :: img[i]
  }

  function Under(img: Image, i: nat): seq<Line> {
    if i in img then img[i] else []
  }

  function CountIn(x: Line, lines: seq<Line>): nat {
    multiset(lines)[x]
  }

  lemma NoneIn(x: Line, lines: seq<Line>)
    requires lines == []
    ensures CountIn(x, lines) == 0
  {
  }

  lemma NoLog(img: Image, x: Line)
    ensures CountIn(x, LogBelow(img, 0)) == 0
  {
  }

  lemma LogStep(img: Image, b: nat, x: Line)
    requires b > 0
    ensures CountIn(x, LogBelow(img, b)) == CountIn(x, LogBelow(img, b - 1)) + CountIn(x, Under(img, b - 1))
  {
  }

  /** A segment more under an index that was free adds its records to the log, wherever they go. */
  lemma {:induction false} LogWithSegment(img: Image, img': Image, k: nat, b: nat, x: Line)
    requires Under(img, k) == [] && forall i: nat :: i != k ==> Under(img', i) == Under(img, i)
    ensures CountIn(x, LogBelow(img', b))
         == CountIn(x, LogBelow(img, b)) + if k < b then CountIn(x, Under(img', k)) else 0
  {
    hide LogBelow, CountIn, Under;
    if b > 0 {
      LogWithSegment(img, img', k, b - 1, x);
      LogStep(img, b, x);
      LogStep(img', b, x);
      if k == b - 1 {
        NoneIn(x, Under(img, k));
      } else {
        assert Under(img', b - 1) == Under(img, b - 1);
      }
    } else {
      NoLog(img, x);
      NoLog(img', x);
    }
  }

  lemma OnlyOneMore(img: Image, order: seq<nat>)
    requires Distinct(order) && order != []
    ensures var init, last := order[..|order| - 1], order[|order| - 1];
            && Distinct(init) && Under(Only(img, init), last) == [] && Under(Only(img, order), last) == Under(img, last)
            && forall i: nat :: i != last ==> Under(Only(img, order), i) == Under(Only(img, init), i)
  {
    var init, last := order[..|order| - 1], order[|order| - 1];
    assert order == init + [last];
  }

  lemma {:induction false} EmptyLog(img: Image, b: nat)
    requires img == map[]
    ensures LogBelow(img, b) == []
  {
    if b > 0 { EmptyLog(img, b - 1); }
  }

  /** Reading distinct segments in any order reads each record as often as the log holds it under them. */
  lemma {:induction false} ReadAnyOrder(img: Image, order: seq<nat>, b: nat, x: Line)
    requires Distinct(order) && forall i :: i in order ==> i < b
    ensures CountIn(x, ReadAll(img, order)) == CountIn(x, LogBelow(Only(img, order), b))
  {
    if order == [] {
      EmptyLog(Only(img, order), b);
    } else {
      var init, last := order[..|order| - 1], order[|order| - 1];
      OnlyOneMore(img, order);
      assert forall i :: i in init ==> i in order;
      ReadAnyOrder(img, init, b, x);
      LogWithSegment(Only(img, init), Only(img, order), last, b, x);
      ReadNext(img, order);
      hide LogBelow, ReadAll, Only;
    }
  }

  lemma {:induction false} SubseqBag<T>(a: seq<T>, b: seq<T>)
    requires Subseq(a, b)
    ensures multiset(a) <= multiset(b)
  {
    if a != [] {
      assert b == b[..|b| - 1] + [b[|b| - 1]];
      if a[|a| - 1] == b[|b| - 1] && Subseq(a[..|a| - 1], b[..|b| - 1]) {
        assert a == a[..|a| - 1] + [a[|a| - 1]];
        SubseqBag(a[..|a| - 1], b[..|b| - 1]);
      } else {
        SubseqBag(a, b[..|b| - 1]);
      }
    }
  }

  /** For indices of any size, a complete listing reads every record of the log as often as it is there. */
  lemma LoadedInAnyOrder(img: Image, listed: seq<nat>)
    requires Distinct(listed) && img.Keys == set i | i in listed
    ensures multiset(ReadAll(img, SortByName(listed))) == multiset(Log(img))
  {
    var order, b := SortByName(listed), Top(img.Keys);
    SortIsDistinct(listed);
    SortKeepsMembers(listed);
    AllListed(img, listed, order);
    hide LogBelow, ReadAll, CountIn, Distinct, SortByName;
    forall x ensures CountIn(x, ReadAll(img, order)) == CountIn(x, Log(img)) { ReadAnyOrder(img, order, b, x); }
    SameBags(ReadAll(img, order), Log(img));
  }

  lemma SameBags(a: seq<Line>, b: seq<Line>)
    requires forall x :: CountIn(x, a) == CountIn(x, b)
    ensures multiset(a) == multiset(b)
  {
    assert forall x :: multiset(a)[x] == CountIn(x, a) && multiset(b)[x] == CountIn(x, b);
  }

  lemma AllListed(img: Image, listed: seq<nat>, order: seq<nat>)
    requires img.Keys == (set i | i in listed) && forall x :: x in order <==> x in listed
    ensures Only(img, order) == img && forall i :: i in order ==> i < Top(img.Keys)
  {
    forall k | 0 <= k < |order| ensures order[k] < Top(img.Keys) {
      assert order[k] in (set i | i in listed);
      assert order[k] in img.Keys;
    }
    forall i | i in img ensures i in order {
      assert i in img.Keys;
    }
  }

  lemma ShortNames(listed: seq<nat>, img: Image)
    requires (set i | i in listed) <= img.Keys && forall i :: i in img ==> i < PADDED_LIMIT
    ensures Short(listed)
  {
    forall k | 0 <= k < |listed| ensures listed[k] < PADDED_LIMIT {
      assert listed[k] in (set i | i in listed);
      assert listed[k] in img;
    }
  }
}
