/** `ipaddress.ip_address(s)` followed by `int(...)`: the integer value of an
    address string. Dotted-quad IPv4 is parsed here; IPv6 parsing is supplied
    by the caller as a partial function `v6`, tried only when the string is not
    an IPv4 address, as `ip_address` does. */
module IpAddr {
  import opened Outcome
  import opened PyStr

  /** `IPv4Address._parse_octet`: one to three ASCII digits, no leading zero
      unless the octet is "0", value at most 255. */
  function ParseOctet(s: string): (r: Option<nat>)
    ensures r.Some? ==> r.value < 256 && s == NatToString(r.value)
  {
    if s == [] || !AllDigits(s) || |s| > 3 || (s != "0" && s[0] == '0') then None
    else
      var n := DigitsValue(s);
      if n > 255 then None
      else
        CanonicalDigits(s);
        Some(n)
  }

  lemma {:induction false} NatToStringLength(n: nat)
    ensures n < 10 ==> |NatToString(n)| == 1
    ensures n < 100 ==> |NatToString(n)| <= 2
    ensures n < 1000 ==> |NatToString(n)| <= 3
  {
    if n >= 10 {
      NatToStringLength(n / 10);
    }
  }

  /** Every octet value is accepted in its canonical spelling. */
  lemma ParseOctetOfNatToString(n: nat)
    requires n < 256
    ensures ParseOctet(NatToString(n)) == Some(n)
  {
    NatToStringLength(n);
  }

  /** Big-endian combination of four octets. */
  function FromOctets(a: nat, b: nat, c: nat, d: nat): nat {
    ((a * 256 + b) * 256 + c) * 256 + d
  }

  /** `int(IPv4Address(s))`, or None where the constructor raises. */
  function ParseIPv4(s: string): (r: Option<nat>)
    ensures r.Some? ==> r.value < 0x1_0000_0000
  {
    if s == [] then None
    else
      var parts := SplitOn(s, '.');
      if |parts| != 4 then None
      else
        match (ParseOctet(parts[0]), ParseOctet(parts[1]), ParseOctet(parts[2]), ParseOctet(parts[3]))
        case (Some(a), Some(b), Some(c), Some(d)) => Some(FromOctets(a, b, c, d))
        case _ => None
  }

  /** The dotted-quad spelling of an address value (`str(IPv4Address(n))`). */
  function FormatIPv4(n: nat): string {
    var m1 := n / 256;
    var m2 := m1 / 256;
    JoinWith([NatToString(m2 / 256), NatToString(m2 % 256), NatToString(m1 % 256), NatToString(n % 256)], ".")
  }

  lemma DivMod256(q: nat, r: nat)
    requires r < 256
    ensures (q * 256 + r) / 256 == q && (q * 256 + r) % 256 == r
  {
  }

  /** An accepted IPv4 string is the canonical spelling of its value. */
  lemma ParseIPv4Canonical(s: string)
    requires ParseIPv4(s).Some?
    ensures s == FormatIPv4(ParseIPv4(s).value)
  {
    var parts := SplitOn(s, '.');
    JoinSplitOn(s, '.');
    var a, b, c, d := ParseOctet(parts[0]).value, ParseOctet(parts[1]).value,
                      ParseOctet(parts[2]).value, ParseOctet(parts[3]).value;
    var n := FromOctets(a, b, c, d);
    DivMod256((a * 256 + b) * 256 + c, d);
    DivMod256(a * 256 + b, c);
    DivMod256(a, b);
    assert parts == [parts[0], parts[1], parts[2], parts[3]];
  }

  /** Different IPv4 strings never share a value. */
  lemma IPv4Injective(s: string, t: string)
    requires ParseIPv4(s).Some? && ParseIPv4(s) == ParseIPv4(t)
    ensures s == t
  {
    ParseIPv4Canonical(s);
    ParseIPv4Canonical(t);
  }

  /** Every 32-bit value is the value of its dotted-quad spelling. */
  lemma ParseFormatIPv4(n: nat)
    requires n < 0x1_0000_0000
    ensures ParseIPv4(FormatIPv4(n)) == Some(n)
  {
    var m1 := n / 256;
    var m2 := m1 / 256;
    var a, b, c, d := m2 / 256, m2 % 256, m1 % 256, n % 256;
    assert a < 256;
    var parts := [NatToString(a), NatToString(b), NatToString(c), NatToString(d)];
    forall i | 0 <= i < 4 ensures '.' !in parts[i] {
      assert AllDigits(parts[i]);
    }
    SplitOnJoin(parts, '.');
    ParseOctetOfNatToString(a);
    ParseOctetOfNatToString(b);
    ParseOctetOfNatToString(c);
    ParseOctetOfNatToString(d);
    assert FromOctets(a, b, c, d) == n;
  }

  /** `int(ip_address(s))`: IPv4 first, then the caller's IPv6 parser. */
  function IpAddressValue(s: string, v6: string -> Option<nat>): (r: Option<nat>)
    ensures ParseIPv4(s).Some? ==> r == ParseIPv4(s)
    ensures ParseIPv4(s).None? ==> r == v6(s)
  {
    match ParseIPv4(s)
    case Some(n) => Some(n)
    case None => v6(s)
  }
}
