/** How a rewrite cuts the remaining records into segments. */
module WalSegments {
  import opened Sequences
  import opened WalDisk

  /** Bytes on disk: each record carries the two-byte prefix "0\t". */
  function Bytes(lines: seq<Line>): nat {
    if lines == [] then 0 else Bytes(lines[..|lines| - 1]) + |lines[|lines| - 1]| + 2
  }

  /** Room was left before the last record went in. */
  ghost predicate RoomBeforeLast(chunk: seq<Line>, limit: nat) {
    |chunk| <= 1 || limit == 0 || Bytes(chunk[..|chunk| - 1]) < limit
  }

  /** A segment that was closed while records remained. */
  ghost predicate Full(chunk: seq<Line>, limit: nat) {
    chunk != [] && 0 < limit <= Bytes(chunk)
  }

  ghost predicate Greedy(chunks: seq<seq<Line>>, limit: nat) {
    && chunks != []
    && (forall j :: 0 <= j < |chunks| ==> RoomBeforeLast(chunks[j], limit))
    && (forall j :: 0 <= j < |chunks| - 1 ==> Full(chunks[j], limit))
    && (|chunks| > 1 ==> chunks[|chunks| - 1] != [])
  }

  lemma {:induction false} BytesOfPrefix(a: seq<Line>, b: seq<Line>)
    requires a <= b
    ensures Bytes(a) <= Bytes(b)
    decreases b
  {
    if a != b {
      assert a <= b[..|b| - 1];
      BytesOfPrefix(a, b[..|b| - 1]);
    }
  }

  lemma ConcatHead(chunks: seq<seq<Line>>)
    requires chunks != []
    ensures Concat(chunks) == chunks[0] + Concat(chunks[1..])
  {
    var head, rest := [chunks[0]], chunks[1..];
    ConcatOne(chunks[0]);
    hide Concat;
    assert chunks == head + rest;
    ConcatAppend(head, rest);
  }

  lemma ConcatOne(chunk: seq<Line>)
    ensures Concat([chunk]) == chunk
  {
    assert [chunk][..0] == [] && [] + chunk == chunk;
  }

  lemma FirstChunkNotShorter(a: seq<seq<Line>>, b: seq<seq<Line>>, limit: nat)
    requires Greedy(a, limit) && Greedy(b, limit) && Concat(a) == Concat(b)
    ensures |b[0]| <= |a[0]|
  {
    ConcatHead(a);
    ConcatHead(b);
    if |a| > 1 && |a[0]| < |b[0]| {
      assert a[0] == Concat(a)[..|a[0]|] == Concat(b)[..|a[0]|] == b[0][..|a[0]|];
      assert Full(a[0], limit) && RoomBeforeLast(b[0], limit);
      BytesOfPrefix(a[0], b[0][..|b[0]| - 1]);
      assert false;
    }
  }

  /** The records and the limit leave only one way to cut, so the generation is fully determined. */
  lemma {:induction false} GreedyIsUnique(a: seq<seq<Line>>, b: seq<seq<Line>>, limit: nat)
    requires Greedy(a, limit) && Greedy(b, limit) && Concat(a) == Concat(b)
    ensures a == b
  {
    FirstChunkNotShorter(a, b, limit);
    FirstChunkNotShorter(b, a, limit);
    ConcatHead(a);
    ConcatHead(b);
    assert a[0] == Concat(a)[..|a[0]|] == Concat(b)[..|b[0]|] == b[0];
    assert Concat(a[1..]) == Concat(a)[|a[0]|..] == Concat(b)[|b[0]|..] == Concat(b[1..]);
    if |a| > 1 { RestIsNotEmpty(a); }
    if |b| > 1 { RestIsNotEmpty(b); }
    if |a| > 1 {
      assert Greedy(a[1..], limit) by {
        forall j | 0 <= j < |a| - 1 ensures RoomBeforeLast(a[1..][j], limit) { assert a[1..][j] == a[j + 1]; }
        forall j | 0 <= j < |a| - 2 ensures Full(a[1..][j], limit) { assert a[1..][j] == a[j + 1]; }
      }
      assert Greedy(b[1..], limit) by {
        forall j | 0 <= j < |b| - 1 ensures RoomBeforeLast(b[1..][j], limit) { assert b[1..][j] == b[j + 1]; }
        forall j | 0 <= j < |b| - 2 ensures Full(b[1..][j], limit) { assert b[1..][j] == b[j + 1]; }
      }
      GreedyIsUnique(a[1..], b[1..], limit);
      assert a == [a[0]] + a[1..] && b == [b[0]] + b[1..];
    }
  }

  lemma RestIsNotEmpty(chunks: seq<seq<Line>>)
    requires |chunks| > 1 && chunks[|chunks| - 1] != []
    ensures Concat(chunks[1..]) != []
  {
    var rest := chunks[1..];
    assert rest[|rest| - 1] == chunks[|chunks| - 1];
  }

  /** Every segment stays below the limit plus its last record. */
  lemma SegmentSize(chunks: seq<seq<Line>>, limit: nat, j: nat)
    requires Greedy(chunks, limit) && limit > 0 && j < |chunks| && chunks[j] != []
    ensures Bytes(chunks[j]) < limit + |chunks[j][|chunks[j]| - 1]| + 2
  {
    assert RoomBeforeLast(chunks[j], limit);
    assert |chunks[j]| == 1 ==> chunks[j][..0] == [];
  }
}
