/** Strings and numbers as the serializer writes them, and a reader for them (section 7 of RFC 8259). */
module JsonText {
  import opened Sequences
  import opened WalNames

  // ---- Strings ----

  const BACKSPACE: char := '\U{0008}'
  const FORM_FEED: char := '\U{000C}'

  function EscapeChar(c: char): (s: string)
    ensures s != ""
  {
    if c == '"' then "\\\""
    else if c == '\\' then "\\\\"
    else if c == BACKSPACE then "\\b"
    else if c == FORM_FEED then "\\f"
    else if c == '\n' then "\\n"
    else if c == '\r' then "\\r"
    else if c == '\t' then "\\t"
    else [c]
  }

  function Escape(s: string): string {
    if s == "" then "" else EscapeChar(s[0]) + Escape(s[1..])
  }

  predicate Control(c: char) {
    c < ' '
  }

  /** Its only control characters are those that append_json_string escapes. */
  predicate Clean(s: string) {
    forall i :: 0 <= i < |s| && Control(s[i]) ==> s[i] in {BACKSPACE, FORM_FEED, '\n', '\r', '\t'}
  }

  /** append_json_string. */
  method AppendJsonString(output: string, value: string) returns (after: string)
    ensures after == output + Quoted(value)
  {
    after := AppendEscaped(output + "\"", value);
    after := after + "\"";
  }

  function Quoted(value: string): string {
    "\"" + Escape(value) + "\""
  }

  /** The loop of append_json_string, which to_json_line repeats for the event id. */
  method AppendEscaped(output: string, value: string) returns (after: string)
    ensures after == output + Escape(value)
  {
    after := output;
    var i := 0;
    assert value[..0] == "" && Escape("") == "" && output + "" == output;
    while i < |value|
      invariant 0 <= i <= |value| && after == output + Escape(value[..i])
    {
      EscapeSnoc(value[..i], value[i]);
      assert value[..i + 1] == value[..i] + [value[i]];
      PlusAssoc(output, Escape(value[..i]), EscapeChar(value[i]));
      hide *;
      after := AppendChar(after, value[i]);
      i := i + 1;
    }
    assert value[..i] == value;
  }

  /** The switch of append_json_string. */
  method AppendChar(output: string, c: char) returns (after: string)
    ensures after == output + EscapeChar(c)
  {
    if c == '"' { after := output + "\\\""; }
    else if c == '\\' { after := output + "\\\\"; }
    else if c == BACKSPACE { after := output + "\\b"; }
    else if c == FORM_FEED { after := output + "\\f"; }
    else if c == '\n' { after := output + "\\n"; }
    else if c == '\r' { after := output + "\\r"; }
    else if c == '\t' { after := output + "\\t"; }
    else { after := output + [c]; }
  }

  lemma {:induction false} EscapeAppend(a: string, b: string)
    ensures Escape(a + b) == Escape(a) + Escape(b)
  {
    if a == "" {
      assert a + b == b;
    } else {
      hide *;
      EscapeAppend(a[1..], b);
      EscapeStep(a);
      EscapeStep(a + b);
      PlusTail(a, b);
      PlusAssoc(EscapeChar(a[0]), Escape(a[1..]), Escape(b));
    }
  }

  lemma EscapeStep(s: string)
    requires s != ""
    ensures Escape(s) == EscapeChar(s[0]) + Escape(s[1..])
  {
  }

  lemma EscapeSnoc(s: string, c: char)
    ensures Escape(s + [c]) == Escape(s) + EscapeChar(c)
  {
    EscapeAppend(s, [c]);
    assert [c][1..] == "";
    assert Escape([c]) == EscapeChar(c) + Escape("");
  }

  /** Whatever the string, no newline is left in it. */
  lemma {:induction false} EscapedHasNoNewline(s: string)
    ensures '\n' !in Escape(s)
  {
    if s != "" { EscapedHasNoNewline(s[1..]); }
  }

  // ---- Reading strings ----

  datatype Read<+T> = Failed | Got(value: T, rest: string)

  /** The character that a backslash and this one stand for. The writer produces no \u escapes, so none are read. */
  function Unescaped(c: char): Option<char> {
    if c == '"' || c == '\\' || c == '/' then Some(c)
    else if c == 'b' then Some(BACKSPACE)
    else if c == 'f' then Some(FORM_FEED)
    else if c == 'n' then Some('\n')
    else if c == 'r' then Some('\r')
    else if c == 't' then Some('\t')
    else None
  }

  /** What follows an opening quote, up to the closing one. A raw control character is not allowed. */
  function ReadBody(text: string): (r: Read<string>)
    ensures r.Got? ==> |r.rest| < |text|
    decreases |text|
  {
    if text == "" || Control(text[0]) then Failed
    else if text[0] == '"' then Got("", text[1..])
    else if text[0] == '\\' then
      if |text| < 2 || Unescaped(text[1]).None? then Failed
      else Prepended(Unescaped(text[1]).value, ReadBody(text[2..]))
    else Prepended(text[0], ReadBody(text[1..]))
  }

  function Prepended(c: char, r: Read<string>): Read<string> {
    if r.Got? then Got([c] + r.value, r.rest) else Failed
  }

  lemma ReadChar(c: char, rest: string)
    ensures var r := ReadBody(EscapeChar(c) + rest);
            if Control(c) && !Clean([c]) then r == Failed else r == Prepended(c, ReadBody(rest))
  {
    if |EscapeChar(c)| == 2 {
      ReadEscaped(EscapeChar(c)[1], rest);
      assert EscapeChar(c) == ['\\', EscapeChar(c)[1]];
      assert Unescaped(EscapeChar(c)[1]) == Some(c) && Clean([c]);
    } else {
      assert EscapeChar(c) == [c];
      ReadPlain(c, rest);
      assert Control(c) <==> !Clean([c]) by { assert [c][0] == c; }
    }
    hide *;
  }

  lemma ReadEscaped(d: char, rest: string)
    ensures ReadBody(['\\', d] + rest)
            == if Unescaped(d).None? then Failed else Prepended(Unescaped(d).value, ReadBody(rest))
  {
    var text := ['\\', d] + rest;
    assert text[2..] == rest && text[1] == d;
    hide Unescaped, EscapeChar;
  }

  lemma ReadPlain(c: char, rest: string)
    requires c != '"' && c != '\\'
    ensures ReadBody([c] + rest) == if Control(c) then Failed else Prepended(c, ReadBody(rest))
  {
    assert ([c] + rest)[1..] == rest;
  }

  /** The reader finds the string and its end behind the writer, exactly when no other control character is in it. */
  lemma {:induction false} StringRoundTrip(s: string, rest: string)
    ensures ReadBody(Escape(s) + "\"" + rest) == Got(s, rest) <==> Clean(s)
    ensures !Clean(s) ==> ReadBody(Escape(s) + "\"" + rest) == Failed
  {
    if s == "" {
      assert Escape(s) + "\"" + rest == "\"" + rest;
      assert ("\"" + rest)[1..] == rest;
    } else {
      var tail := Escape(s[1..]) + "\"" + rest;
      assert Escape(s) + "\"" + rest == EscapeChar(s[0]) + tail;
      ReadChar(s[0], tail);
      StringRoundTrip(s[1..], rest);
      CleanHead(s);
      assert [s[0]] + s[1..] == s;
    }
  }

  lemma CleanHead(s: string)
    requires s != ""
    ensures Clean(s) <==> Clean([s[0]]) && Clean(s[1..])
    ensures !Clean([s[0]]) ==> Control(s[0])
  {
    assert s == [s[0]] + s[1..];
    assert forall i :: 0 < i < |s| ==> s[i] == s[1..][i - 1];
  }

  // ---- Numbers ----

  predicate NumberChar(c: char) {
    '0' <= c <= '9' || c == '-' || c == '.'
  }

  predicate NumberText(t: string) {
    t != "" && forall i :: 0 <= i < |t| ==> NumberChar(t[i])
  }

  function IntText(n: int): string {
    if n < 0 then "-" + Decimal(-n) else Decimal(n)
  }

  /** "%.3f" of a value given in thousandths. */
  function Fixed3(thousandths: int): string {
    if thousandths < 0 then "-" + Unsigned3(-thousandths) else Unsigned3(thousandths)
  }

  function Unsigned3(n: nat): string {
    Decimal(n / 1000) + "." + Fraction(n % 1000)
  }

  function Fraction(n: nat): (s: string)
    requires n < 1000
    ensures |s| == 3
  {
    [Digit(n / 100), Digit(n % 100 / 10), Digit(n % 100 % 10)]
  }

  lemma IntTextIsNumber(n: int)
    ensures NumberText(IntText(n))
  {
    DecimalValue(if n < 0 then -n else n);
  }

  lemma Fixed3IsNumber(n: int)
    ensures NumberText(Fixed3(n))
  {
    Unsigned3IsNumber(if n < 0 then -n else n);
    hide Unsigned3;
  }

  lemma Unsigned3IsNumber(n: nat)
    ensures NumberText(Unsigned3(n))
  {
    DecimalValue(n / 1000);
    assert NumberText(Fraction(n % 1000)) && NumberText(Decimal(n / 1000));
    hide Fraction, Decimal;
  }

  // ---- The buffer of append_double ----

  const DOUBLE_BUFFER: nat := 64

  lemma {:induction false} DecimalLength(n: nat, k: nat)
    requires k > 0
    ensures |Decimal(n)| <= k <==> n < Pow10(k)
    decreases k
  {
    if k == 1 {
      assert Pow10(1) == 10 * Pow10(0);
    } else if n >= 10 {
      DecimalLength(n / 10, k - 1);
    } else {
      assert Pow10(k - 1) >= 1;
    }
  }

  /** The formatted value fits the buffer, with its terminating zero, exactly while it stays this small. */
  lemma DoubleFits(thousandths: int)
    ensures |Fixed3(thousandths)| < DOUBLE_BUFFER
            <==> -1000 * Pow10(58) < thousandths < 1000 * Pow10(59)
  {
    DecimalLength((if thousandths < 0 then -thousandths else thousandths) / 1000, if thousandths < 0 then 58 else 59);
  }

  // ---- Reading numbers ----

  function NumberLength(text: string): (n: nat)
    ensures n <= |text|
  {
    if text != "" && NumberChar(text[0]) then 1 + NumberLength(text[1..]) else 0
  }

  function ReadNumber(text: string): (r: Read<string>)
    ensures r.Got? ==> |r.rest| < |text|
  {
    var n := NumberLength(text);
    if n == 0 then Failed else Got(text[..n], text[n..])
  }

  lemma {:induction false} NumberLengthOf(t: string, rest: string)
    requires forall i :: 0 <= i < |t| ==> NumberChar(t[i])
    requires rest != "" ==> !NumberChar(rest[0])
    ensures NumberLength(t + rest) == |t|
  {
    if t == "" {
      assert t + rest == rest;
    } else {
      assert (t + rest)[1..] == t[1..] + rest;
      NumberLengthOf(t[1..], rest);
    }
  }

  lemma NumberRoundTrip(t: string, rest: string)
    requires NumberText(t) && (rest != "" ==> !NumberChar(rest[0]))
    ensures ReadNumber(t + rest) == Got(t, rest)
  {
    NumberLengthOf(t, rest);
    assert (t + rest)[..|t|] == t && (t + rest)[|t|..] == rest;
  }

  // ---- What the numbers are ----

  function DecimalOf(t: string): Option<nat> {
    if t == "" || !AllDigits(t) then None else Some(DigitsValue(t))
  }

  function Negated(n: Option<int>): Option<int> {
    if n.Some? then Some(-n.value) else None
  }

  function IntOf(t: string): Option<int> {
    if t != "" && t[0] == '-' then Negated(DecimalOf(t[1..])) else DecimalOf(t)
  }

  /** A number with three decimals, in thousandths. */
  function ThousandthsOf(t: string): Option<int> {
    if t != "" && t[0] == '-' then Negated(UnsignedThousandthsOf(t[1..])) else UnsignedThousandthsOf(t)
  }

  function UnsignedThousandthsOf(t: string): Option<nat> {
    var point := |t| - 4;
    if point < 0 || t[point] != '.' then None
    else
      var whole, fraction := DecimalOf(t[..point]), DecimalOf(t[point + 1..]);
      if whole.Some? && fraction.Some? then Some(1000 * whole.value + fraction.value) else None
  }

  /** append_integer writes the integer itself. */
  lemma IntReadBack(n: int)
    ensures IntOf(IntText(n)) == Some(n)
  {
    DecimalValue(if n < 0 then -n else n);
    hide Decimal, DigitsValue;
    if n < 0 { assert IntText(n)[1..] == Decimal(-n); }
  }

  lemma FractionValue(n: nat)
    requires n < 1000
    ensures DecimalOf(Fraction(n)) == Some(n)
  {
    var h, t, u := Digit(n / 100), Digit(n % 100 / 10), Digit(n % 100 % 10);
    DigitsSnoc("", h);
    DigitsSnoc([h], t);
    DigitsSnoc([h, t], u);
    assert "" + [h] == [h] && [h] + [t] == [h, t] && [h, t] + [u] == Fraction(n);
    ThreeDigits(n);
    DigitsValueOfNone();
    hide DigitsValue;
  }

  lemma DigitsValueOfNone()
    ensures DigitsValue("") == 0
  {
  }

  lemma ThreeDigits(n: nat)
    ensures n == n / 100 * 100 + n % 100 / 10 * 10 + n % 100 % 10
  {
    var r := n % 100;
    assert n == n / 100 * 100 + r;
    assert r == r / 10 * 10 + r % 10;
  }

  lemma UnsignedReadBack(n: nat)
    ensures UnsignedThousandthsOf(Unsigned3(n)) == Some(n) && Unsigned3(n)[0] != '-'
  {
    var t := Unsigned3(n);
    DecimalValue(n / 1000);
    FractionValue(n % 1000);
    assert t[..|t| - 4] == Decimal(n / 1000) && t[|t| - 3..] == Fraction(n % 1000) && t[|t| - 4] == '.';
    hide Decimal, Fraction, DigitsValue;
  }

  /** append_double writes the value to the thousandth. */
  lemma ThousandthsReadBack(n: int)
    ensures ThousandthsOf(Fixed3(n)) == Some(n)
  {
    UnsignedReadBack(if n < 0 then -n else n);
    if n < 0 { assert Fixed3(n)[1..] == Unsigned3(-n); }
    hide Unsigned3, UnsignedThousandthsOf;
  }
}
