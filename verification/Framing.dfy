/** The text of a log segment: records framed by a leading "0\t" and a trailing newline. */
module Framing {
  import opened Sequences

  /** A json line as the log takes it: not empty, and with exactly one newline, at its end. */
  predicate IsRecord(r: string) {
    |r| >= 2 && r[|r| - 1] == '\n' && '\n' !in r[..|r| - 1]
  }

  /** What append_wal and the rewrite write for a record. */
  function Framed(record: string): string {
    "0\t" + record
  }

  function Build(records: seq<string>): string {
    if records == [] then "" else Framed(records[0]) + Build(records[1..])
  }

  /** The length of the first line, without its newline. */
  function LineLength(text: string): (n: nat)
    ensures n <= |text| && '\n' !in text[..n] && (n < |text| ==> text[n] == '\n')
  {
    if text == "" || text[0] == '\n' then 0
    else
      var n := LineLength(text[1..]);
      assert text[..n + 1] == [text[0]] + text[1..][..n];
      n + 1
  }

  /** What load_wal makes of one line: a record again, or nothing. */
  function FromLine(line: string): seq<string> {
    if |line| > 2 && line[0] == '0' && line[1] == '\t' then [line[2..] + "\n"] else []
  }

  /** getline after getline; the last line need not end in a newline. */
  function Parse(text: string): seq<string>
    decreases |text|
  {
    if text == "" then []
    else
      var n := LineLength(text);
      FromLine(text[..n]) + Parse(if n < |text| then text[n + 1..] else "")
  }

  /** getline. */
  method FirstLine(text: string) returns (n: nat)
    ensures n == LineLength(text)
  {
    n := 0;
    while n < |text| && text[n] != '\n'
      invariant 0 <= n <= |text|
      invariant LineLength(text) == n + LineLength(text[n..])
    {
      assert text[n..][1..] == text[n + 1..];
      n := n + 1;
    }
  }

  lemma ParseStep(text: string)
    requires text != ""
    ensures var n := LineLength(text);
            Parse(text) == FromLine(text[..n]) + Parse(if n < |text| then text[n + 1..] else "")
  {
  }

  /** One turn of load_wal's reading loop. */
  method ReadLine(text: string) returns (record: seq<string>, rest: string)
    requires text != ""
    ensures |rest| < |text| && Parse(text) == record + Parse(rest)
  {
    ParseStep(text);
    hide Parse, LineLength;
    var n := FirstLine(text);
    var line := text[..n];
    rest := if n < |text| then text[n + 1..] else "";
    record := if |line| > 2 && line[0] == '0' && line[1] == '\t' then [line[2..] + "\n"] else [];
  }

  /** load_wal's reading loop over one segment. */
  method ReadSegment(text: string) returns (records: seq<string>)
    ensures records == Parse(text)
  {
    ParseEmpty();
    hide Parse;
    records := [];
    var rest := text;
    while rest != ""
      invariant records + Parse(rest) == Parse(text)
      decreases |rest|
    {
      var record, later := ReadLine(rest);
      PlusAssoc(records, record, Parse(later));
      records, rest := records + record, later;
    }
  }

  lemma ParseEmpty()
    ensures Parse("") == []
  {
  }

  lemma {:induction false} LineLengthOf(line: string, rest: string)
    requires '\n' !in line
    ensures LineLength(line + "\n" + rest) == |line|
    ensures LineLength(line) == |line|
  {
    var text := line + "\n" + rest;
    if line != "" {
      assert text[1..] == line[1..] + "\n" + rest;
      LineLengthOf(line[1..], rest);
    }
  }

  /** A terminated line is read by itself, whatever follows. */
  lemma ParseLine(line: string, rest: string)
    requires '\n' !in line
    ensures Parse(line + "\n" + rest) == FromLine(line) + Parse(rest)
  {
    LineLengthOf(line, rest);
    var text := line + "\n" + rest;
    assert text[..|line|] == line && text[|line| + 1..] == rest;
  }

  lemma ParseRecord(r: string, rest: string)
    requires IsRecord(r)
    ensures Parse(Framed(r) + rest) == [r] + Parse(rest)
  {
    var line := "0\t" + r[..|r| - 1];
    assert r == r[..|r| - 1] + "\n";
    assert Framed(r) + rest == line + "\n" + rest;
    ParseLine(line, rest);
    assert line[2..] + "\n" == r;
  }

  lemma BuildFirst(records: seq<string>, rest: string)
    requires records != []
    ensures Build(records) + rest == Framed(records[0]) + (Build(records[1..]) + rest)
  {
  }

  lemma HeadTail<T>(a: seq<T>, b: seq<T>)
    requires a != []
    ensures [a[0]] + (a[1..] + b) == a + b
  {
  }

  lemma {:induction false} ParseBuilt(records: seq<string>, rest: string)
    requires forall i :: 0 <= i < |records| ==> IsRecord(records[i])
    ensures Parse(Build(records) + rest) == records + Parse(rest)
  {
    if records == [] {
      assert Build(records) + rest == rest;
    } else {
      ParseBuilt(records[1..], rest);
      BuildFirst(records, rest);
      ParseRecord(records[0], Build(records[1..]) + rest);
      HeadTail(records, Parse(rest));
      hide *;
    }
  }

  /** A segment is read back as exactly the records that were written to it. */
  lemma SegmentRoundTrip(records: seq<string>)
    requires forall i :: 0 <= i < |records| ==> IsRecord(records[i])
    ensures Parse(Build(records)) == records
  {
    ParseBuilt(records, "");
    assert Build(records) + "" == Build(records);
  }

  /** Nothing but such a record is read back as itself. */
  lemma OnlyRecordsRoundTrip(r: string)
    ensures Parse(Build([r])) == [r] <==> IsRecord(r)
  {
    var text := Framed(r);
    assert Build([r]) == text + Build([]) == text;
    if IsRecord(r) {
      SegmentRoundTrip([r]);
    } else if Parse(text) == [r] {
      var n := LineLength(text);
      FirstIsRecord(text);
      assert false;
    }
  }

  /** Whatever the text, what is read from it are records. */
  lemma {:induction false} FirstIsRecord(text: string)
    ensures forall i :: 0 <= i < |Parse(text)| ==> IsRecord(Parse(text)[i])
    decreases |text|
  {
    if text != "" {
      var n := LineLength(text);
      FirstIsRecord(if n < |text| then text[n + 1..] else "");
    }
  }

  // ---- Torn appends ----

  /** A segment that ends in the middle of a record: what is there of it becomes a record of its own. */
  lemma TornTail(records: seq<string>, r: string, k: nat)
    requires forall i :: 0 <= i < |records| ==> IsRecord(records[i])
    requires IsRecord(r) && k < |Framed(r)|
    ensures Parse(Build(records) + Framed(r)[..k]) == records + if k > 2 then [r[..k - 2] + "\n"] else []
  {
    ParseTorn(r, k);
    ParseBuilt(records, Framed(r)[..k]);
    hide *;
  }

  lemma ParseTorn(r: string, k: nat)
    requires IsRecord(r) && k < |Framed(r)|
    ensures Parse(Framed(r)[..k]) == if k > 2 then [r[..k - 2] + "\n"] else []
  {
    var torn := Framed(r)[..k];
    TornHasNoNewline(r, k);
    ParseUnterminated(torn);
    hide Parse;
    if k > 2 { assert torn[2..] == r[..k - 2]; }
  }

  lemma ParseUnterminated(line: string)
    requires '\n' !in line
    ensures Parse(line) == FromLine(line)
  {
    LineLengthOf(line, "");
    assert line[..|line|] == line;
  }

  lemma TornHasNoNewline(r: string, k: nat)
    requires IsRecord(r) && k < |Framed(r)|
    ensures '\n' !in Framed(r)[..k]
  {
    var torn := Framed(r)[..k];
    forall i | 0 <= i < k ensures torn[i] != '\n' {
      if i >= 2 { assert torn[i] == r[..|r| - 1][i - 2]; }
    }
  }

  /** What a reload makes of a torn append that the next appends have been written behind. */
  lemma TornThenAppended(records: seq<string>, r: string, k: nat, next: string, rest: seq<string>)
    requires forall i :: 0 <= i < |records| ==> IsRecord(records[i])
    requires forall i :: 0 <= i < |rest| ==> IsRecord(rest[i])
    requires IsRecord(r) && IsRecord(next) && 0 < k < |Framed(r)|
    ensures Parse(Build(records) + Framed(r)[..k] + Build([next] + rest))
            == records + (if k >= 2 then [r[..k - 2] + Framed(next)] else []) + rest
  {
    var torn, more := Framed(r)[..k], Build([next] + rest);
    MergedParse(r, k, next, rest);
    ParseBuilt(records, torn + more);
    PlusAssoc(Build(records), torn, more);
    PlusAssoc(records, if k >= 2 then [r[..k - 2] + Framed(next)] else [], rest);
    hide *;
  }

  lemma MergedParse(r: string, k: nat, next: string, rest: seq<string>)
    requires IsRecord(r) && IsRecord(next) && 0 < k < |Framed(r)|
    requires forall i :: 0 <= i < |rest| ==> IsRecord(rest[i])
    ensures Parse(Framed(r)[..k] + Build([next] + rest))
            == (if k >= 2 then [r[..k - 2] + Framed(next)] else []) + rest
  {
    var torn := Framed(r)[..k];
    var merged := torn + "0\t" + next[..|next| - 1];
    assert '\n' !in merged by { TornHasNoNewline(r, k); }
    assert ([next] + rest)[1..] == rest;
    assert Build([next] + rest) == Framed(next) + Build(rest);
    MergedText(torn, next, Build(rest));
    ParseLine(merged, Build(rest));
    MergedLine(r, k, next);
    SegmentRoundTrip(rest);
    hide *;
  }

  lemma MergedText(torn: string, next: string, after: string)
    requires IsRecord(next)
    ensures torn + (Framed(next) + after) == torn + "0\t" + next[..|next| - 1] + "\n" + after
  {
    assert next == next[..|next| - 1] + "\n";
  }

  lemma MergedLine(r: string, k: nat, next: string)
    requires IsRecord(r) && IsRecord(next) && 0 < k < |Framed(r)|
    ensures FromLine(Framed(r)[..k] + "0\t" + next[..|next| - 1]) == if k >= 2 then [r[..k - 2] + Framed(next)] else []
  {
    var torn := Framed(r)[..k];
    var merged := torn + "0\t" + next[..|next| - 1];
    if k >= 2 {
      assert merged[0] == '0' && merged[1] == '\t';
      assert torn[2..] == r[..k - 2];
      assert merged[2..] + "\n" == r[..k - 2] + Framed(next);
    } else {
      assert merged[1] == '0';
    }
  }

  /** What a reload should find after appends of r and then of more. */
  function Expected(records: seq<string>, r: string, whole: bool, more: seq<string>): seq<string> {
    records + (if whole then [r] else []) + more
  }

  /** The records written behind an append survive it if and only if the append left nothing or everything. */
  lemma AppendsSurviveExactly(records: seq<string>, r: string, k: nat, next: string, rest: seq<string>)
    requires forall i :: 0 <= i < |records| ==> IsRecord(records[i])
    requires forall i :: 0 <= i < |rest| ==> IsRecord(rest[i])
    requires IsRecord(r) && IsRecord(next) && k <= |Framed(r)|
    ensures var whole := k == |Framed(r)|;
            Parse(Build(records) + Framed(r)[..k] + Build([next] + rest)) == Expected(records, r, whole, [next] + rest)
            <==> k == 0 || whole
  {
    if k == 0 || k == |Framed(r)| {
      WholeSurvives(records, r, k, [next] + rest);
    } else {
      TornLoses(records, r, k, next, rest);
    }
    hide *;
  }

  lemma WholeSurvives(records: seq<string>, r: string, k: nat, more: seq<string>)
    requires forall i :: 0 <= i < |records| ==> IsRecord(records[i])
    requires forall i :: 0 <= i < |more| ==> IsRecord(more[i])
    requires IsRecord(r) && (k == 0 || k == |Framed(r)|)
    ensures Parse(Build(records) + Framed(r)[..k] + Build(more)) == Expected(records, r, k == |Framed(r)|, more)
  {
    var kept := if k == 0 then [] else [r];
    assert Framed(r)[..k] == Build(kept) by {
      if k > 0 { assert [r][1..] == [] && Build([]) == "" && Build([r]) == Framed(r) + ""; }
    }
    AppendedWhole(records, kept, more);
  }

  lemma TornLoses(records: seq<string>, r: string, k: nat, next: string, rest: seq<string>)
    requires forall i :: 0 <= i < |records| ==> IsRecord(records[i])
    requires forall i :: 0 <= i < |rest| ==> IsRecord(rest[i])
    requires IsRecord(r) && IsRecord(next) && 0 < k < |Framed(r)|
    ensures Parse(Build(records) + Framed(r)[..k] + Build([next] + rest)) != Expected(records, r, false, [next] + rest)
  {
    TornThenAppended(records, r, k, next, rest);
    var merged := if k >= 2 then r[..k - 2] + Framed(next) else "";
    assert k >= 2 ==> |merged| > |next|;
    Differs(records, if k >= 2 then [merged] else [], next, rest);
    assert Expected(records, r, false, [next] + rest) == records + [] + ([next] + rest);
    hide *;
  }

  lemma Differs(records: seq<string>, got: seq<string>, next: string, rest: seq<string>)
    requires got == [] || (|got| == 1 && got[0] != next)
    ensures records + got + rest != records + [] + ([next] + rest)
  {
    var a, b := records + got + rest, records + [] + ([next] + rest);
    assert |a| == |records| + |got| + |rest| && |b| == |records| + 1 + |rest|;
    assert b[|records|] == next;
    if got != [] { assert a[|records|] == got[0]; }
  }

  lemma AppendedWhole(records: seq<string>, kept: seq<string>, more: seq<string>)
    requires forall i :: 0 <= i < |records| ==> IsRecord(records[i])
    requires forall i :: 0 <= i < |kept| ==> IsRecord(kept[i])
    requires forall i :: 0 <= i < |more| ==> IsRecord(more[i])
    ensures Parse(Build(records) + Build(kept) + Build(more)) == records + kept + more
  {
    hide Parse, Build, IsRecord;
    var tail := Build(kept) + Build(more);
    assert Parse(tail) == kept + more by {
      ParseBuilt(kept, Build(more));
      SegmentRoundTrip(more);
    }
    ParseBuilt(records, tail);
    assert Build(records) + Build(kept) + Build(more) == Build(records) + tail;
  }
}
