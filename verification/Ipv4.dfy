/** The address check of the metrics client list. */
module Ipv4 {
  import opened Sequences
  import opened WalNames

  /** Digits with a value up to 255; leading zeros are accepted. */
  predicate Octet(part: string) {
    part != "" && AllDigits(part) && DigitsValue(part) <= 255
  }

  /** A decimal number is an octet up to 255, whatever zeros stand in front of it. */
  lemma OctetsUpTo255(n: nat, zeros: nat)
    ensures Octet(Zeros(zeros) + Decimal(n)) <==> n < 256
  {
    DecimalValue(n);
    ZerosValue(zeros, Decimal(n));
  }

  function FirstDot(s: string): (r: Option<nat>)
    ensures r.Some? ==> r.value < |s| && s[r.value] == '.' && '.' !in s[..r.value]
    ensures r.None? ==> '.' !in s
  {
    if s == "" then None
    else if s[0] == '.' then Some(0)
    else
      var r := FirstDot(s[1..]);
      assert s == [s[0]] + s[1..];
      assert r.Some? ==> s[..r.value + 1] == [s[0]] + s[1..][..r.value];
      if r.Some? then Some(r.value + 1) else None
  }

  /** k octets with dots between them. */
  predicate Octets(s: string, k: nat)
    decreases k
  {
    if k == 0 then false
    else
      var dot := FirstDot(s);
      if k == 1 then Octet(s) && dot.None?
      else dot.Some? && Octet(s[..dot.value]) && Octets(s[dot.value + 1..], k - 1)
  }

  ghost predicate Dotted(s: string, a: string, b: string, c: string, d: string) {
    Octet(a) && Octet(b) && Octet(c) && Octet(d) && s == a + "." + b + "." + c + "." + d
  }

  ghost predicate IsIpv4(s: string) {
    exists a, b, c, d :: Dotted(s, a, b, c, d)
  }

  lemma OctetsNext(s: string, k: nat)
    requires k > 0
    ensures var dot := FirstDot(s);
            Octets(s, k)
            <==> if k == 1 then Octet(s) && dot.None?
                 else dot.Some? && Octet(s[..dot.value]) && Octets(s[dot.value + 1..], k - 1)
  {
  }

  /** valid_ipv4. */
  method ValidIpv4(value: string) returns (ok: bool)
    ensures ok <==> IsIpv4(value)
  {
    OctetsAreDotted(value);
    hide IsIpv4, Octets, Octet, FirstDot;
    var rest := value;
    var octet := 0;
    while octet < 4
      invariant 0 <= octet < 4 && (Octets(rest, 4 - octet) <==> IsIpv4(value))
      decreases 4 - octet
    {
      OctetsNext(rest, 4 - octet);
      var dot := FirstDot(rest);
      var part := if dot.Some? then rest[..dot.value] else rest;
      if !Octet(part) { return false; }
      if octet == 3 { return dot.None?; }
      if dot.None? { return false; }
      rest := rest[dot.value + 1..];
      octet := octet + 1;
    }
  }

  lemma {:induction false} FirstDotAt(part: string, rest: string)
    requires '.' !in part
    ensures FirstDot(part + "." + rest) == Some(|part|)
  {
    if part != "" {
      assert (part + "." + rest)[1..] == part[1..] + "." + rest;
      FirstDotAt(part[1..], rest);
    }
  }

  lemma OctetsStep(part: string, rest: string, k: nat)
    requires k > 1
    ensures Octet(part) ==> (Octets(part + "." + rest, k) <==> Octets(rest, k - 1))
  {
    if Octet(part) {
      FirstDotAt(part, rest);
      var s := part + "." + rest;
      assert s[..|part|] == part && s[|part| + 1..] == rest;
    }
  }

  lemma OctetsSplit(s: string, k: nat) returns (part: string, rest: string)
    requires Octets(s, k) && k > 1
    ensures Octet(part) && Octets(rest, k - 1) && s == part + "." + rest
  {
    var dot := FirstDot(s).value;
    part, rest := s[..dot], s[dot + 1..];
  }

  lemma LastOctet(s: string)
    ensures Octets(s, 1) <==> Octet(s)
  {
  }

  lemma OctetsAreDotted(s: string)
    ensures Octets(s, 4) <==> IsIpv4(s)
  {
    hide Octet, Octets, FirstDot, Dotted;
    if Octets(s, 4) {
      var a, s1 := OctetsSplit(s, 4);
      var b, s2 := OctetsSplit(s1, 3);
      var c, d := OctetsSplit(s2, 2);
      LastOctet(d);
      Nested(a, b, c, d);
      DottedIs(a, b, c, d);
    }
    if IsIpv4(s) {
      var a, b, c, d :| Dotted(s, a, b, c, d);
      DottedHas(s, a, b, c, d);
    }
  }

  lemma DottedIs(a: string, b: string, c: string, d: string)
    requires Octet(a) && Octet(b) && Octet(c) && Octet(d)
    ensures Dotted(a + "." + b + "." + c + "." + d, a, b, c, d)
  {
  }

  lemma DottedHas(s: string, a: string, b: string, c: string, d: string)
    requires Dotted(s, a, b, c, d)
    ensures Octets(s, 4)
  {
    hide Octet, Octets, FirstDot;
    Nested(a, b, c, d);
    OctetsStep(a, b + "." + (c + "." + d), 4);
    OctetsStep(b, c + "." + d, 3);
    OctetsStep(c, d, 2);
    LastOctet(d);
  }

  lemma Nested(a: string, b: string, c: string, d: string)
    ensures a + "." + (b + "." + (c + "." + d)) == a + "." + b + "." + c + "." + d
  {
  }
}
