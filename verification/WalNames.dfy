/** Segment file names: `events_` + the index padded with zeros to six digits + `.wal`. */
module WalNames {
  import opened Sequences

  const UINT64_LIMIT: nat := 0x1_0000_0000_0000_0000
  const PADDED_LIMIT: nat := 1_000_000

  function Digit(d: nat): char
    requires d < 10
  {
    '0' + d as char
  }

  function Decimal(n: nat): (s: string)
    ensures s != ""
  {
    if n < 10 then [Digit(n)] else Decimal(n / 10) + [Digit(n % 10)]
  }

  function Zeros(k: nat): string {
    if k == 0 then "" else Zeros(k - 1) + "0"
  }

  /** What a stream prints for an integer under setw(6) and setfill('0'). */
  function Padded(n: nat): string {
    var s := Decimal(n);
    if |s| < 6 then Zeros(6 - |s|) + s else s
  }

  function SegmentName(index: nat): string {
    "events_" + Padded(index) + ".wal"
  }

  function LastIndexOf(s: string, c: char): (r: Option<nat>)
    ensures r.Some? ==> r.value < |s| && s[r.value] == c && c !in s[r.value + 1..]
    ensures r.None? <==> c !in s
  {
    if s == "" then None
    else if s[|s| - 1] == c then Some(|s| - 1)
    else
      var r := LastIndexOf(s[..|s| - 1], c);
      assert s == s[..|s| - 1] + [s[|s| - 1]];
      r
  }

  /** std::stoull on a text that starts with a digit: the longest run of leading digits, if it fits 64 bits. */
  function LeadingDigits(s: string): string {
    if s != "" && '0' <= s[0] <= '9' then [s[0]] + LeadingDigits(s[1..]) else ""
  }

  predicate AllDigits(s: string) {
    forall k :: 0 <= k < |s| ==> '0' <= s[k] <= '9'
  }

  function DigitsValue(s: string): nat
    requires AllDigits(s)
  {
    if s == "" then 0 else DigitsValue(s[..|s| - 1]) * 10 + (s[|s| - 1] - '0') as nat
  }

  lemma LeadingDigitsAreDigits(s: string)
    ensures AllDigits(LeadingDigits(s))
  {
  }

  function IndexFromName(name: string): Option<nat> {
    var dot := LastIndexOf(name, '.');
    var stem := if dot.Some? then name[..dot.value] else name;
    var underscore := LastIndexOf(stem, '_');
    if underscore.None? then None
    else
      var digits := LeadingDigits(stem[underscore.value + 1..]);
      LeadingDigitsAreDigits(stem[underscore.value + 1..]);
      if digits == "" || DigitsValue(digits) >= UINT64_LIMIT then None else Some(DigitsValue(digits))
  }

  // ---- The name determines the index ----

  lemma {:induction false} DecimalValue(n: nat)
    ensures AllDigits(Decimal(n)) && DigitsValue(Decimal(n)) == n
  {
    if n >= 10 { DecimalValue(n / 10); }
  }

  lemma {:induction false} ZerosOnly(k: nat)
    ensures AllDigits(Zeros(k)) && DigitsValue(Zeros(k)) == 0
  {
    if k > 0 {
      ZerosOnly(k - 1);
      DigitsSnoc(Zeros(k - 1), '0');
    }
  }

  lemma DigitsSnoc(s: string, c: char)
    requires AllDigits(s) && '0' <= c <= '9'
    ensures AllDigits(s + [c]) && DigitsValue(s + [c]) == DigitsValue(s) * 10 + (c - '0') as nat
  {
    assert (s + [c])[..|s|] == s;
  }

  lemma {:induction false} ZerosValue(k: nat, s: string)
    requires AllDigits(s)
    ensures AllDigits(Zeros(k) + s) && DigitsValue(Zeros(k) + s) == DigitsValue(s)
    decreases |s|
  {
    if s == "" {
      ZerosOnly(k);
      assert Zeros(k) + s == Zeros(k);
    } else {
      var init, last := s[..|s| - 1], s[|s| - 1];
      ZerosValue(k, init);
      DigitsSnoc(init, last);
      DigitsSnoc(Zeros(k) + init, last);
      PlusAssoc(Zeros(k), init, [last]);
      assert s == init + [last];
      hide *;
    }
  }

  lemma PaddedValue(n: nat)
    ensures Padded(n) != "" && AllDigits(Padded(n)) && DigitsValue(Padded(n)) == n
  {
    DecimalValue(n);
    if |Decimal(n)| < 6 { ZerosValue(6 - |Decimal(n)|, Decimal(n)); }
  }

  lemma {:induction false} LeadingDigitsAll(s: string)
    requires AllDigits(s)
    ensures LeadingDigits(s) == s
  {
    if s != "" {
      LeadingDigitsAll(s[1..]);
      assert s == [s[0]] + s[1..];
    }
  }

  lemma {:induction false} LastIndexOfAt(before: string, c: char, after: string)
    requires c !in after
    ensures LastIndexOf(before + [c] + after, c) == Some(|before|)
  {
    hide LastIndexOf;
    if after == "" {
      LastIndexOfLast(before, c);
      assert before + [c] + after == before + [c];
    } else {
      var init, last := after[..|after| - 1], after[|after| - 1];
      assert after == init + [last];
      LastIndexOfAt(before, c, init);
      LastIndexOfSnoc(before + [c] + init, last, c);
      PlusAssoc(before + [c], init, [last]);
    }
  }

  lemma LastIndexOfLast(s: string, c: char)
    ensures LastIndexOf(s + [c], c) == Some(|s|)
  {
    var all := s + [c];
    assert all[|all| - 1] == c;
  }

  lemma LastIndexOfSnoc(s: string, last: char, c: char)
    requires last != c
    ensures LastIndexOf(s + [last], c) == LastIndexOf(s, c)
  {
    assert (s + [last])[..|s|] == s;
  }

  /** wal_index_from_path inverts wal_path_for_index on every 64-bit index. */
  lemma NameRoundTrip(index: nat)
    requires index < UINT64_LIMIT
    ensures IndexFromName(SegmentName(index)) == Some(index)
  {
    var p := Padded(index);
    PaddedValue(index);
    var stem := "events_" + p;
    LastIndexOfAt(stem, '.', "wal");
    assert SegmentName(index) == stem + ['.'] + "wal";
    LastIndexOfAt("events", '_', p);
    assert stem == "events" + ['_'] + p;
    LeadingDigitsAll(p);
    assert stem[7..] == p;
  }

  lemma {:induction false} ZerosLength(k: nat)
    ensures |Zeros(k)| == k
  {
    if k > 0 { ZerosLength(k - 1); }
  }

  lemma {:induction false} NoLeadingZero(n: nat)
    requires n > 0
    ensures Decimal(n)[0] != '0'
  {
    if n >= 10 { NoLeadingZero(n / 10); }
  }

  /** The index in six digits or more; more than six do not start with a zero. */
  lemma NameShape(index: nat) returns (digits: string)
    ensures SegmentName(index) == "events_" + digits + ".wal"
    ensures |digits| >= 6 && AllDigits(digits) && DigitsValue(digits) == index && (|digits| > 6 ==> digits[0] != '0')
  {
    digits := Padded(index);
    PaddedValue(index);
    if |Decimal(index)| < 6 { ZerosLength(6 - |Decimal(index)|); }
    if index > 0 { NoLeadingZero(index); }
    hide DigitsValue, Decimal, Zeros, AllDigits;
  }

  // ---- Lexicographic order of names against numeric order of indices ----

  /** Byte-wise lexicographic order, the order std::sort gives the segment paths. */
  ghost predicate LexLess(a: string, b: string) {
    exists k: nat :: LexLessAt(a, b, k)
  }

  predicate LexLessAt(a: string, b: string, k: nat) {
    k <= |a| && k < |b| && (forall j :: 0 <= j < k ==> a[j] == b[j]) && (k == |a| || a[k] < b[k])
  }

  lemma LexLessAsymmetric(a: string, b: string)
    requires LexLess(a, b)
    ensures !LexLess(b, a)
  {
    var k: nat :| LexLessAt(a, b, k);
    forall m: nat
      ensures !LexLessAt(b, a, m)
    {
    }
  }

  function Pow10(w: nat): (r: nat)
    ensures r >= 1
  {
    if w == 0 then 1 else 10 * Pow10(w - 1)
  }

  /** The last w decimal digits. */
  function FixedWidth(n: nat, w: nat): (s: string)
    ensures |s| == w
  {
    if w == 0 then "" else FixedWidth(n / 10, w - 1) + [Digit(n % 10)]
  }

  lemma {:induction false} FixedWidthOfZero(w: nat)
    ensures FixedWidth(0, w) == Zeros(w)
  {
    if w > 0 { FixedWidthOfZero(w - 1); }
  }

  lemma {:induction false} FixedWidthIsPadding(n: nat, w: nat)
    requires n < Pow10(w) && w >= 1
    ensures |Decimal(n)| <= w && FixedWidth(n, w) == Zeros(w - |Decimal(n)|) + Decimal(n)
  {
    if n < 10 {
      FixedWidthOfZero(w - 1);
    } else {
      assert Pow10(w) == 10 * Pow10(w - 1) && Pow10(0) == 1;
      FixedWidthIsPadding(n / 10, w - 1);
    }
  }

  lemma {:induction false} FixedWidthOrder(n: nat, m: nat, w: nat) returns (k: nat)
    requires n < m < Pow10(w)
    ensures k < w && LexLessAt(FixedWidth(n, w), FixedWidth(m, w), k)
  {
    var a, b := FixedWidth(n / 10, w - 1), FixedWidth(m / 10, w - 1);
    if n / 10 < m / 10 {
      k := FixedWidthOrder(n / 10, m / 10, w - 1);
    } else {
      k := w - 1;
    }
  }

  lemma PaddedIsFixed(n: nat)
    requires n < PADDED_LIMIT
    ensures Padded(n) == FixedWidth(n, 6)
  {
    assert Pow10(6) == PADDED_LIMIT;
    FixedWidthIsPadding(n, 6);
    assert Zeros(0) == "";
    hide Pow10, Decimal, FixedWidth, Zeros;
    NothingInFront(Decimal(n));
  }

  lemma NothingInFront(s: string)
    ensures "" + s == s
  {
  }

  lemma NameOrderForward(i: nat, j: nat)
    requires i < j < PADDED_LIMIT
    ensures LexLess(SegmentName(i), SegmentName(j))
  {
    PaddedIsFixed(i);
    PaddedIsFixed(j);
    assert Pow10(6) == PADDED_LIMIT;
    var k := FixedWidthOrder(i, j, 6);
    var a, b := SegmentName(i), SegmentName(j);
    assert forall m :: 7 <= m < 13 ==> a[m] == Padded(i)[m - 7] && b[m] == Padded(j)[m - 7];
    assert LexLessAt(a, b, 7 + k);
  }

  /** The first pair that sorts the wrong way round. */
  lemma TwoDecimals()
    ensures Decimal(999_999) == "999999" && Decimal(1_000_000) == "1000000"
  {
  }

  lemma MillionthNameSortsFirst()
    ensures LexLess(SegmentName(1_000_000), SegmentName(999_999))
  {
    TwoDecimals();
    hide Decimal;
    assert LexLessAt(SegmentName(1_000_000), SegmentName(999_999), 7);
  }

  /** Name order is index order on all indices below `limit` exactly when limit is at most one million. */
  lemma NameOrderExactly(limit: nat)
    ensures (forall i: nat, j: nat :: i < j < limit ==> LexLess(SegmentName(i), SegmentName(j)))
            <==> limit <= PADDED_LIMIT
  {
    if limit <= PADDED_LIMIT {
      forall i: nat, j: nat | i < j < limit
        ensures LexLess(SegmentName(i), SegmentName(j))
      {
        NameOrderForward(i, j);
      }
    } else {
      MillionthNameSortsFirst();
      LexLessAsymmetric(SegmentName(1_000_000), SegmentName(999_999));
    }
  }

  // ---- Sorting the listed segments ----

  /** The comparison of std::sort on paths in one directory. */
  predicate Before(a: string, b: string) {
    if b == "" then false
    else if a == "" then true
    else if a[0] != b[0] then a[0] < b[0]
    else Before(a[1..], b[1..])
  }

  lemma {:induction false} LexLessIsBefore(a: string, b: string, k: nat)
    requires LexLessAt(a, b, k)
    ensures Before(a, b)
    decreases k
  {
    if k > 0 {
      assert a[0] == b[0];
      LexLessIsBefore(a[1..], b[1..], k - 1);
    }
  }

  function InsertByName(x: nat, sorted: seq<nat>): (r: seq<nat>)
    ensures multiset(r) == multiset(sorted) + multiset{x}
  {
    if sorted == [] || Before(SegmentName(x), SegmentName(sorted[0])) then [x] + sorted
    else
      assert sorted == [sorted[0]] + sorted[1..];
      [sorted[0]] + InsertByName(x, sorted[1..])
  }

  function SortByName(xs: seq<nat>): (r: seq<nat>)
    ensures multiset(r) == multiset(xs)
  {
    if xs == [] then []
    else
      assert xs == [xs[0]] + xs[1..];
      InsertByName(xs[0], SortByName(xs[1..]))
  }

  ghost predicate Ascending(xs: seq<nat>) {
    forall j, k :: 0 <= j < k < |xs| ==> xs[j] < xs[k]
  }

  ghost predicate Distinct(xs: seq<nat>) {
    forall j, k :: 0 <= j < k < |xs| ==> xs[j] != xs[k]
  }

  ghost predicate Short(xs: seq<nat>) {
    forall k :: 0 <= k < |xs| ==> xs[k] < PADDED_LIMIT
  }

  lemma NamesCompare(x: nat, y: nat)
    requires x < y < PADDED_LIMIT
    ensures Before(SegmentName(x), SegmentName(y)) && !Before(SegmentName(y), SegmentName(x))
  {
    NameOrderForward(x, y);
    var k: nat :| LexLessAt(SegmentName(x), SegmentName(y), k);
    LexLessIsBefore(SegmentName(x), SegmentName(y), k);
    BeforeAsymmetric(SegmentName(x), SegmentName(y));
  }

  lemma {:induction false} InsertAscending(x: nat, sorted: seq<nat>)
    requires Ascending(sorted) && Short(sorted) && x < PADDED_LIMIT && x !in sorted
    ensures Ascending(InsertByName(x, sorted))
  {
    if sorted != [] {
      if x < sorted[0] {
        NamesCompare(x, sorted[0]);
      } else {
        NamesCompare(sorted[0], x);
        InsertAscending(x, sorted[1..]);
        InsertKeepsAbove(x, sorted[1..], sorted[0]);
      }
      hide Before, SegmentName;
    }
  }

  lemma InsertKeepsAbove(x: nat, sorted: seq<nat>, low: nat)
    requires low < x && forall k :: 0 <= k < |sorted| ==> low < sorted[k]
    ensures forall k :: 0 <= k < |InsertByName(x, sorted)| ==> low < InsertByName(x, sorted)[k]
  {
    var all := InsertByName(x, sorted);
    forall k | 0 <= k < |all| ensures low < all[k] { assert all[k] in multiset(all); }
  }

  lemma {:induction false} BeforeAsymmetric(a: string, b: string)
    requires Before(a, b)
    ensures !Before(b, a)
  {
    if a != "" && a[0] == b[0] { BeforeAsymmetric(a[1..], b[1..]); }
  }

  /** Distinct indices below one million come out of the name sort in increasing order. */
  lemma {:induction false} SortIsAscending(xs: seq<nat>)
    requires Distinct(xs) && Short(xs)
    ensures Ascending(SortByName(xs))
  {
    if xs != [] {
      var rest := SortByName(xs[1..]);
      SortIsAscending(xs[1..]);
      SortKeepsMembers(xs[1..]);
      forall k | 0 <= k < |rest| ensures rest[k] < PADDED_LIMIT && rest[k] != xs[0] {
        assert rest[k] in xs[1..];
      }
      InsertAscending(xs[0], rest);
    }
  }

  lemma SortKeepsMembers(xs: seq<nat>)
    ensures forall x :: x in SortByName(xs) <==> x in xs
  {
    forall x ensures x in SortByName(xs) <==> x in xs {
      assert x in SortByName(xs) <==> x in multiset(SortByName(xs));
      assert x in xs <==> x in multiset(xs);
    }
  }
}
