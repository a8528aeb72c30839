/** Facts about sequences that the event path needs: order-preserving selection and concatenation. */
module Sequences {

  datatype Option<+T> = None | Some(value: T)

  lemma PlusAssoc<T>(a: seq<T>, b: seq<T>, c: seq<T>)
    ensures a + b + c == a + (b + c)
  {
  }

  lemma PlusTail<T>(a: seq<T>, b: seq<T>)
    requires a != []
    ensures (a + b)[0] == a[0] && (a + b)[1..] == a[1..] + b
  {
  }

  /** a can be obtained from b by deleting elements. */
  ghost predicate Subseq<T>(a: seq<T>, b: seq<T>) {
    if a == [] then true
    else if b == [] then false
    else
      || (a[|a| - 1] == b[|b| - 1] && Subseq(a[..|a| - 1], b[..|b| - 1]))
      || Subseq(a, b[..|b| - 1])
  }

  function Concat<T>(chunks: seq<seq<T>>): (r: seq<T>) {
    if chunks == [] then [] else Concat(chunks[..|chunks| - 1]) + chunks[|chunks| - 1]
  }

  lemma ConcatSnoc<T>(chunks: seq<seq<T>>, last: seq<T>)
    ensures Concat(chunks + [last]) == Concat(chunks) + last
  {
    assert (chunks + [last])[..|chunks|] == chunks;
  }

  lemma {:induction false} ConcatAppend<T>(a: seq<seq<T>>, b: seq<seq<T>>)
    ensures Concat(a + b) == Concat(a) + Concat(b)
  {
    if b == [] {
      assert a + b == a;
    } else {
      var init := b[..|b| - 1];
      ConcatAppend(a, init);
      assert (a + b)[..|a + b| - 1] == a + init;
      assert Concat(a) + Concat(init) + b[|b| - 1] == Concat(a) + Concat(b);
    }
  }

  lemma {:induction false} SubseqAppend<T>(a: seq<T>, b: seq<T>, c: seq<T>, d: seq<T>)
    requires Subseq(a, b) && Subseq(c, d)
    ensures Subseq(a + c, b + d)
    decreases |b| + |d|
  {
    if d == [] {
      assert a + c == a && b + d == b;
    } else {
      assert (b + d)[..|b + d| - 1] == b + d[..|d| - 1];
      if c == [] {
        assert a + c == a;
        SubseqAppend(a, b, c, d[..|d| - 1]);
      } else if c[|c| - 1] == d[|d| - 1] && Subseq(c[..|c| - 1], d[..|d| - 1]) {
        SubseqAppend(a, b, c[..|c| - 1], d[..|d| - 1]);
        assert (a + c)[..|a + c| - 1] == a + c[..|c| - 1];
      } else {
        SubseqAppend(a, b, c, d[..|d| - 1]);
      }
    }
  }

  lemma {:induction false} SubseqRefl<T>(a: seq<T>)
    ensures Subseq(a, a)
  {
    if a != [] { SubseqRefl(a[..|a| - 1]); }
  }

  lemma SubseqOfPrefix<T>(a: seq<T>, b: seq<T>)
    requires a <= b
    ensures Subseq(a, b)
  {
    SubseqRefl(a);
    SubseqAppend(a, a, [], b[|a|..]);
    assert a + [] == a && a + b[|a|..] == b;
  }

  /** A suffix is a selection too. */
  lemma SubseqOfSuffix<T>(a: seq<T>, k: nat)
    requires k <= |a|
    ensures Subseq(a[k..], a)
  {
    SubseqRefl(a[k..]);
    assert Subseq([], a[..k]);
    hide Subseq;
    SubseqAppend([], a[..k], a[k..], a[k..]);
    TakeDrop(a, k);
  }

  lemma TakeDrop<T>(a: seq<T>, k: nat)
    requires k <= |a|
    ensures a[..k] + a[k..] == a && [] + a[k..] == a[k..]
  {
  }

  lemma {:induction false} SubseqTrans<T>(a: seq<T>, b: seq<T>, c: seq<T>)
    requires Subseq(a, b) && Subseq(b, c)
    ensures Subseq(a, c)
    decreases |b| + |c|
  {
    if a == [] {
    } else if b[|b| - 1] == c[|c| - 1] && Subseq(b[..|b| - 1], c[..|c| - 1]) {
      if a[|a| - 1] == b[|b| - 1] && Subseq(a[..|a| - 1], b[..|b| - 1]) {
        SubseqTrans(a[..|a| - 1], b[..|b| - 1], c[..|c| - 1]);
      } else {
        SubseqTrans(a, b[..|b| - 1], c[..|c| - 1]);
      }
    } else {
      SubseqTrans(a, b, c[..|c| - 1]);
    }
  }

  /** A selection from b stays one when b gains elements on either side. */
  lemma SubseqWiden<T>(a: seq<T>, left: seq<T>, b: seq<T>, right: seq<T>)
    requires Subseq(a, b)
    ensures Subseq(a, left + b + right)
  {
    SubseqAppend([], left, a, b);
    assert [] + a == a;
    SubseqAppend(a, left + b, [], right);
    assert a + [] == a;
  }

  /** A selection from a concatenation splits into a selection from each half. */
  lemma {:induction false} SubseqSplit<T>(s: seq<T>, a: seq<T>, b: seq<T>) returns (k: nat)
    requires Subseq(s, a + b)
    ensures k <= |s| && Subseq(s[..k], a) && Subseq(s[k..], b)
    decreases |b|, |s|
  {
    if b == [] {
      assert a + b == a && s[..|s|] == s;
      return |s|;
    } else if s == [] {
      return 0;
    }
    var init := b[..|b| - 1];
    assert (a + b)[..|a + b| - 1] == a + init;
    if s[|s| - 1] == b[|b| - 1] && Subseq(s[..|s| - 1], a + init) {
      k := SubseqSplit(s[..|s| - 1], a, init);
      assert s[..|s| - 1][..k] == s[..k];
      assert s[k..][..|s[k..]| - 1] == s[..|s| - 1][k..];
    } else {
      k := SubseqSplit(s, a, init);
    }
  }
}
