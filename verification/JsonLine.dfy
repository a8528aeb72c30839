/** A flat JSON object of strings, numbers and one table of numbers: how it is written, and a reader for it. */
module JsonLine {
  import opened Sequences
  import opened JsonText

  datatype Value = Text(text: string) | Number(number: string) | Table(entries: seq<(string, string)>)

  type Members = seq<(string, Value)>

  function Entry(e: (string, string)): string {
    Quoted(e.0) + ":" + e.1
  }

  function Entries(es: seq<(string, string)>): string {
    if es == [] then "" else if |es| == 1 then Entry(es[0]) else Entry(es[0]) + "," + Entries(es[1..])
  }

  function Written(v: Value): string {
    match v
    case Text(s) => Quoted(s)
    case Number(t) => t
    case Table(es) => "{" + Entries(es) + "}"
  }

  /** A field name is written as it is, between quotes. */
  function Member(m: (string, Value)): string {
    "\"" + m.0 + "\":" + Written(m.1)
  }

  function MembersText(ms: Members): string {
    if ms == [] then "" else if |ms| == 1 then Member(ms[0]) else Member(ms[0]) + "," + MembersText(ms[1..])
  }

  function Line(ms: Members): string {
    "{" + MembersText(ms) + "}\n"
  }

  // ---- Appending ----

  lemma {:induction false} MembersSnoc(ms: Members, m: (string, Value))
    requires ms != []
    ensures MembersText(ms + [m]) == MembersText(ms) + ("," + Member(m))
  {
    PlusTail(ms, [m]);
    hide Member;
    if |ms| == 1 {
      assert (ms + [m])[1..] == [m];
      PlusAssoc(Member(ms[0]), ",", Member(m));
    } else {
      MembersSnoc(ms[1..], m);
      PlusAssoc(Member(ms[0]) + ",", MembersText(ms[1..]), "," + Member(m));
    }
  }

  lemma {:induction false} EntriesSnoc(es: seq<(string, string)>, e: (string, string))
    requires es != []
    ensures Entries(es + [e]) == Entries(es) + ("," + Entry(e))
  {
    PlusTail(es, [e]);
    hide Entry;
    if |es| == 1 {
      assert (es + [e])[1..] == [e];
      PlusAssoc(Entry(es[0]), ",", Entry(e));
    } else {
      EntriesSnoc(es[1..], e);
      PlusAssoc(Entry(es[0]) + ",", Entries(es[1..]), "," + Entry(e));
    }
  }

  // ---- One line ----

  predicate Plain(name: string) {
    forall i :: 0 <= i < |name| ==> EscapeChar(name[i]) == [name[i]] && !Control(name[i])
  }

  predicate WellFormed(v: Value) {
    match v
    case Text(s) => true
    case Number(t) => NumberText(t)
    case Table(es) => forall i :: 0 <= i < |es| ==> NumberText(es[i].1)
  }

  predicate AllWellFormed(ms: Members) {
    forall i :: 0 <= i < |ms| ==> Plain(ms[i].0) && WellFormed(ms[i].1)
  }

  predicate CleanValue(v: Value) {
    match v
    case Text(s) => Clean(s)
    case Number(_) => true
    case Table(es) => forall i :: 0 <= i < |es| ==> Clean(es[i].0)
  }

  predicate AllClean(ms: Members) {
    forall i :: 0 <= i < |ms| ==> CleanValue(ms[i].1)
  }

  lemma NumberHasNoNewline(t: string)
    requires NumberText(t)
    ensures '\n' !in t
  {
  }

  lemma {:induction false} EntriesHaveNoNewline(es: seq<(string, string)>)
    requires forall i :: 0 <= i < |es| ==> NumberText(es[i].1)
    ensures '\n' !in Entries(es)
  {
    if es != [] {
      EntriesHaveNoNewline(es[1..]);
      EscapedHasNoNewline(es[0].0);
      NumberHasNoNewline(es[0].1);
    }
  }

  lemma ValueHasNoNewline(v: Value)
    requires WellFormed(v)
    ensures '\n' !in Written(v)
  {
    match v
    case Text(s) => EscapedHasNoNewline(s);
    case Number(t) => NumberHasNoNewline(t);
    case Table(es) => EntriesHaveNoNewline(es);
  }

  lemma {:induction false} MembersHaveNoNewline(ms: Members)
    requires AllWellFormed(ms)
    ensures '\n' !in MembersText(ms)
  {
    if ms != [] {
      MembersHaveNoNewline(ms[1..]);
      ValueHasNoNewline(ms[0].1);
      assert '\n' !in Member(ms[0]);
    }
  }

  // ---- Reading ----

  function Expect<T>(c: char, r: Read<T>): (e: Read<T>)
    ensures e.Got? ==> r.Got? && e.value == r.value && |e.rest| < |r.rest|
  {
    if r.Got? && r.rest != "" && r.rest[0] == c then Got(r.value, r.rest[1..]) else Failed
  }

  /** A string, its quotes included. */
  function ReadString(text: string): (r: Read<string>)
    ensures r.Got? ==> |r.rest| < |text|
  {
    if text == "" || text[0] != '"' then Failed else ReadBody(text[1..])
  }

  function ReadEntry(text: string): (r: Read<(string, string)>)
    ensures r.Got? ==> |r.rest| < |text|
  {
    var key := Expect(':', ReadString(text));
    if key.Failed? then Failed
    else
      var number := ReadNumber(key.rest);
      if number.Failed? then Failed else Got((key.value, number.value), number.rest)
  }

  /** One entry or more, up to the closing brace. */
  function ReadEntries(text: string): (r: Read<seq<(string, string)>>)
    ensures r.Got? ==> |r.rest| < |text|
    decreases |text|
  {
    var first := ReadEntry(text);
    if first.Failed? || first.rest == "" then Failed
    else if first.rest[0] == '}' then Got([first.value], first.rest[1..])
    else if first.rest[0] == ',' then
      var more := ReadEntries(first.rest[1..]);
      if more.Got? then Got([first.value] + more.value, more.rest) else Failed
    else Failed
  }

  function ReadValue(text: string): (r: Read<Value>)
    ensures r.Got? ==> |r.rest| < |text|
  {
    if text == "" then Failed
    else if text[0] == '"' then
      var s := ReadString(text);
      if s.Got? then Got(Text(s.value), s.rest) else Failed
    else if text[0] == '{' then
      if |text| > 1 && text[1] == '}' then Got(Table([]), text[2..])
      else
        var es := ReadEntries(text[1..]);
        if es.Got? then Got(Table(es.value), es.rest) else Failed
    else
      var t := ReadNumber(text);
      if t.Got? then Got(Number(t.value), t.rest) else Failed
  }

  function ReadMember(text: string): (r: Read<(string, Value)>)
    ensures r.Got? ==> |r.rest| < |text|
  {
    var name := Expect(':', ReadString(text));
    if name.Failed? then Failed
    else
      var v := ReadValue(name.rest);
      if v.Failed? then Failed else Got((name.value, v.value), v.rest)
  }

  function ReadMembers(text: string): (r: Read<Members>)
    ensures r.Got? ==> |r.rest| < |text|
    decreases |text|
  {
    var first := ReadMember(text);
    if first.Failed? || first.rest == "" then Failed
    else if first.rest[0] == '}' then Got([first.value], first.rest[1..])
    else if first.rest[0] == ',' then
      var more := ReadMembers(first.rest[1..]);
      if more.Got? then Got([first.value] + more.value, more.rest) else Failed
    else Failed
  }

  /** A whole line: an object, a newline, and nothing else. */
  function ReadLine(line: string): Option<Members> {
    if line == "" || line[0] != '{' then None
    else
      var ms := ReadMembers(line[1..]);
      if ms.Got? && ms.rest == "\n" then Some(ms.value) else None
  }

  // ---- The reader undoes the writer ----

  lemma ReadQuoted(s: string, rest: string)
    requires Clean(s)
    ensures ReadString(Quoted(s) + rest) == Got(s, rest)
  {
    StringRoundTrip(s, rest);
    BehindQuote(Escape(s), rest);
    hide Escape;
  }

  lemma BehindQuote(text: string, rest: string)
    ensures ("\"" + text + "\"" + rest)[0] == '"' && ("\"" + text + "\"" + rest)[1..] == text + "\"" + rest
  {
  }

  predicate Ends(rest: string) {
    rest != "" && !NumberChar(rest[0])
  }

  lemma ReadEntryBack(e: (string, string), rest: string)
    requires Clean(e.0) && NumberText(e.1) && Ends(rest)
    ensures ReadEntry(Entry(e) + rest) == Got(e, rest)
  {
    PlusAssoc(Quoted(e.0), ":", e.1);
    PlusAssoc(Quoted(e.0), ":" + e.1, rest);
    PlusAssoc(":", e.1, rest);
    ReadNamed(e.0, e.1 + rest);
    NumberRoundTrip(e.1, rest);
    hide Quoted, ReadString, NumberText, Clean, ReadNumber;
  }

  /** A quoted name and its colon. */
  lemma ReadNamed(name: string, value: string)
    requires Clean(name)
    ensures Expect(':', ReadString(Quoted(name) + (":" + value))) == Got(name, value)
  {
    ReadQuoted(name, ":" + value);
    AfterMark(':', value);
    hide Quoted, ReadString;
  }

  lemma AfterMark(mark: char, rest: string)
    ensures [mark] + rest != "" && ([mark] + rest)[0] == mark && ([mark] + rest)[1..] == rest
  {
  }

  lemma HeadTail<T>(a: seq<T>)
    requires a != []
    ensures [a[0]] + a[1..] == a
  {
  }

  /** The text of a list and its end, seen from its first element. */
  lemma EntriesFirst(es: seq<(string, string)>, rest: string)
    requires es != []
    ensures Entries(es) + "}" + rest
            == Entry(es[0]) + if |es| == 1 then "}" + rest else "," + (Entries(es[1..]) + "}" + rest)
  {
    hide Entry;
    if |es| == 1 {
      PlusAssoc(Entry(es[0]), "}", rest);
    } else {
      Between(Entry(es[0]), Entries(es[1..]), rest);
    }
  }

  lemma Between(first: string, others: string, rest: string)
    ensures first + "," + others + "}" + rest == first + ("," + (others + "}" + rest))
  {
    PlusAssoc(first, ",", others);
    PlusAssoc(first, "," + others, "}");
    PlusAssoc(first, "," + others + "}", rest);
    PlusAssoc(",", others, "}");
    PlusAssoc(",", others + "}", rest);
  }

  lemma ReadEntriesStep(e: (string, string), after: string)
    requires Clean(e.0) && NumberText(e.1) && after != "" && (after[0] == '}' || after[0] == ',')
    ensures var r := ReadEntries(Entry(e) + after);
            if after[0] == '}' then r == Got([e], after[1..])
            else
              var more := ReadEntries(after[1..]);
              more.Got? ==> r == Got([e] + more.value, more.rest)
  {
    ReadEntryBack(e, after);
  }

  lemma {:induction false} ReadEntriesBack(es: seq<(string, string)>, rest: string)
    requires es != [] && forall i :: 0 <= i < |es| ==> Clean(es[i].0) && NumberText(es[i].1)
    ensures ReadEntries(Entries(es) + "}" + rest) == Got(es, rest)
  {
    EntriesFirst(es, rest);
    if |es| == 1 {
      AfterMark('}', rest);
      ReadEntriesStep(es[0], ['}'] + rest);
      assert [es[0]] == es;
      hide *;
    } else {
      var tail := Entries(es[1..]) + "}" + rest;
      ReadEntriesBack(es[1..], rest);
      AfterMark(',', tail);
      ReadEntriesStep(es[0], [','] + tail);
      HeadTail(es);
      hide *;
    }
  }

  lemma ReadText(s: string, rest: string)
    requires Clean(s)
    ensures ReadValue(Quoted(s) + rest) == Got(Text(s), rest)
  {
    ReadQuoted(s, rest);
  }

  lemma ReadNumberValue(t: string, rest: string)
    requires NumberText(t) && Ends(rest)
    ensures ReadValue(t + rest) == Got(Number(t), rest)
  {
    NumberRoundTrip(t, rest);
    assert (t + rest)[0] == t[0];
  }

  lemma EntriesStart(es: seq<(string, string)>, rest: string)
    requires es != []
    ensures Entries(es) + rest != "" && (Entries(es) + rest)[0] == '"'
  {
  }

  lemma ReadTable(es: seq<(string, string)>, rest: string)
    requires forall i :: 0 <= i < |es| ==> Clean(es[i].0) && NumberText(es[i].1)
    ensures ReadValue("{" + Entries(es) + "}" + rest) == Got(Table(es), rest)
  {
    var inner := Entries(es) + "}" + rest;
    if es == [] {
      ReadEmptyTable(rest);
      assert "{" + Entries(es) + "}" == "{}";
      hide *;
    } else {
      ReadEntriesBack(es, rest);
      PlusAssoc(Entries(es), "}", rest);
      EntriesStart(es, "}" + rest);
      ReadOpened(inner, es, rest);
      hide *;
      PlusAssoc("{", Entries(es), "}");
      PlusAssoc("{", Entries(es) + "}", rest);
    }
  }

  lemma ReadEmptyTable(rest: string)
    ensures ReadValue("{}" + rest) == Got(Table([]), rest)
  {
    assert ("{}" + rest)[2..] == rest;
  }

  lemma ReadOpened(inner: string, es: seq<(string, string)>, rest: string)
    requires inner != "" && inner[0] == '"' && ReadEntries(inner) == Got(es, rest)
    ensures ReadValue("{" + inner) == Got(Table(es), rest)
  {
    hide ReadEntries;
    assert ("{" + inner)[1..] == inner;
  }

  lemma ReadValueBack(v: Value, rest: string)
    requires WellFormed(v) && CleanValue(v) && Ends(rest)
    ensures ReadValue(Written(v) + rest) == Got(v, rest)
  {
    match v
    case Text(s) => ReadText(s, rest);
    case Number(t) => ReadNumberValue(t, rest);
    case Table(es) => ReadTable(es, rest);
  }

  lemma {:induction false} PlainIsClean(name: string)
    requires Plain(name)
    ensures Clean(name) && Escape(name) == name
  {
    if name != "" {
      PlainIsClean(name[1..]);
      assert name == [name[0]] + name[1..];
    }
  }

  lemma ReadMemberBack(m: (string, Value), rest: string)
    requires Plain(m.0) && WellFormed(m.1) && CleanValue(m.1) && Ends(rest)
    ensures ReadMember(Member(m) + rest) == Got(m, rest)
  {
    PlainIsClean(m.0);
    MemberShape(m, rest);
    ReadNamed(m.0, Written(m.1) + rest);
    ReadValueBack(m.1, rest);
    hide Written, ReadValue, ReadString, Quoted, Plain, WellFormed, CleanValue, Member, Clean;
  }

  lemma MemberShape(m: (string, Value), rest: string)
    requires Escape(m.0) == m.0
    ensures Member(m) + rest == Quoted(m.0) + (":" + (Written(m.1) + rest))
  {
    assert "\"" + m.0 + "\":" == Quoted(m.0) + ":";
    PlusAssoc(Quoted(m.0), ":", Written(m.1));
    PlusAssoc(Quoted(m.0), ":" + Written(m.1), rest);
    PlusAssoc(":", Written(m.1), rest);
    hide Written, Escape;
  }

  lemma ReadMembersStep(m: (string, Value), after: string)
    requires Plain(m.0) && WellFormed(m.1) && CleanValue(m.1) && after != "" && (after[0] == '}' || after[0] == ',')
    ensures var r := ReadMembers(Member(m) + after);
            if after[0] == '}' then r == Got([m], after[1..])
            else
              var more := ReadMembers(after[1..]);
              more.Got? ==> r == Got([m] + more.value, more.rest)
  {
    ReadMemberBack(m, after);
    hide ReadMember, Member, Plain, WellFormed, CleanValue;
  }

  lemma MembersFirst(ms: Members, rest: string)
    requires ms != []
    ensures MembersText(ms) + "}" + rest
            == Member(ms[0]) + if |ms| == 1 then "}" + rest else "," + (MembersText(ms[1..]) + "}" + rest)
  {
    hide Member;
    if |ms| == 1 {
      PlusAssoc(Member(ms[0]), "}", rest);
    } else {
      Between(Member(ms[0]), MembersText(ms[1..]), rest);
    }
  }

  lemma {:induction false} ReadMembersBack(ms: Members, rest: string)
    requires ms != [] && AllWellFormed(ms) && AllClean(ms)
    ensures ReadMembers(MembersText(ms) + "}" + rest) == Got(ms, rest)
  {
    MembersFirst(ms, rest);
    if |ms| == 1 {
      AfterMark('}', rest);
      ReadMembersStep(ms[0], ['}'] + rest);
      assert [ms[0]] == ms;
      hide *;
    } else {
      var tail := MembersText(ms[1..]) + "}" + rest;
      ReadMembersBack(ms[1..], rest);
      AfterMark(',', tail);
      ReadMembersStep(ms[0], [','] + tail);
      HeadTail(ms);
      hide *;
    }
  }

  /** The reader recovers every member of a clean object, names, values and order. */
  lemma LineRoundTrip(ms: Members)
    requires ms != [] && AllWellFormed(ms) && AllClean(ms)
    ensures ReadLine(Line(ms)) == Some(ms)
  {
    ReadMembersBack(ms, "\n");
    LineShape(MembersText(ms));
    AfterMark('{', MembersText(ms) + "}" + "\n");
    hide ReadMembers, MembersText, AllWellFormed, AllClean;
  }

  lemma LineShape(text: string)
    ensures "{" + text + "}\n" == "{" + (text + "}" + "\n")
  {
  }

  /** Whatever its strings hold, a line has exactly one newline, at its end. */
  lemma OneNewline(ms: Members)
    requires AllWellFormed(ms)
    ensures |Line(ms)| >= 2 && Line(ms)[|Line(ms)| - 1] == '\n' && '\n' !in Line(ms)[..|Line(ms)| - 1]
  {
    MembersHaveNoNewline(ms);
    assert Line(ms)[..|Line(ms)| - 1] == "{" + MembersText(ms) + "}";
  }
}
