/** The address and port codec shared by the proxy protocols (common/protocol/address.go). */
module Addresses {
  import opened Bytes

  type Ip4 = s: bytes | |s| == 4 witness [0, 0, 0, 0]
  type Ip6 = s: bytes | |s| == 16 witness [0, 0, 0, 0, 0, 0, 0, 0, 0, 0, 0, 0, 0, 0, 0, 0]

  datatype Address = IPv4(ip4: Ip4) | IPv6(ip6: Ip6) | Domain(name: bytes)

  /**
   * A parser: the type byte of each family, the port before or after the address, and net.ParseIP
   * on text as an arbitrary function.
   */
  datatype Codec = Codec(v4: byte, domain: byte, v6: byte, portFirst: bool, ipText: bytes -> Option<Address>) {
    ghost predicate Valid() {
      && v4 < 16 && domain < 16 && v6 < 16
      && v4 != domain && v4 != v6 && domain != v6
      && forall t :: ipText(t).Some? ==> !ipText(t).value.Domain?
    }
  }

  datatype Parsed<+T> = Failed | Parsed(value: T, rest: bytes)

  // ---------------------------------------------------------------------------------------------
  // Writing
  // ---------------------------------------------------------------------------------------------

  /** Nothing when the domain is longer than 256 bytes; a length of 256 is cut to a zero byte. */
  function WriteAddress(c: Codec, a: Address): Option<bytes> {
    match a
    case IPv4(ip) => Some([c.v4] + ip)
    case IPv6(ip) => Some([c.v6] + ip)
    case Domain(name) =>
      if |name| > 256 then None else Some([c.domain, if |name| == 256 then 0 else |name|] + name)
  }

  function WriteAddressPort(c: Codec, a: Address, port: u16): Option<bytes> {
    match WriteAddress(c, a)
    case None => None
    case Some(w) => Some(if c.portFirst then PutU16(port) + w else w + PutU16(port))
  }

  // ---------------------------------------------------------------------------------------------
  // Reading
  // ---------------------------------------------------------------------------------------------

  predicate MaybeIpPrefix(b: byte) {
    b == '[' as int || '0' as int <= b <= '9' as int
  }

  predicate DomainByte(b: byte) {
    || '0' as int <= b <= '9' as int
    || 'a' as int <= b <= 'z' as int
    || 'A' as int <= b <= 'Z' as int
    || b == '-' as int || b == '.' as int || b == '_' as int
  }

  predicate ValidDomain(d: bytes) {
    forall i :: 0 <= i < |d| ==> DomainByte(d[i])
  }

  /** An IPv6 address of the form ::ffff:a.b.c.d. */
  predicate Mapped(ip: Ip6) {
    ip[..10] == [0, 0, 0, 0, 0, 0, 0, 0, 0, 0] && ip[10] == 0xff && ip[11] == 0xff
  }

  function FromIp6(ip: Ip6): Address {
    if Mapped(ip) then IPv4(ip[12..]) else IPv6(ip)
  }

  /** Whether the text of a domain is taken for an IP address. */
  predicate IpLike(c: Codec, d: bytes) {
    d != [] && MaybeIpPrefix(d[0]) && c.ipText(d).Some?
  }

  /**
   * A length of zero makes the source look at everything read so far, the zero byte included, and
   * that is never a valid domain.
   */
  function ReadDomain(c: Codec, s: bytes): Parsed<Address> {
    if |s| < 1 || |s| < 1 + s[0] as int || s[0] == 0 then Failed
    else
      var n := s[0] as int;
      var d, rest := s[1..1 + n], s[1 + n..];
      if IpLike(c, d) then Parsed(c.ipText(d).value, rest)
      else if !ValidDomain(d) then Failed
      else Parsed(Domain(d), rest)
  }

  function ReadAddress(c: Codec, s: bytes): Parsed<Address> {
    if s == [] then Failed
    else if s[0] == c.v4 then (if |s| < 5 then Failed else Parsed(IPv4(s[1..5]), s[5..]))
    else if s[0] == c.v6 then (if |s| < 17 then Failed else Parsed(FromIp6(s[1..17]), s[17..]))
    else if s[0] == c.domain then ReadDomain(c, s[1..])
    else Failed
  }

  function ReadPort(s: bytes): Parsed<u16> {
    if |s| < 2 then Failed else Parsed(U16(s[0], s[1]), s[2..])
  }

  function ReadAddressPort(c: Codec, s: bytes): Parsed<(Address, u16)> {
    if c.portFirst then
      match ReadPort(s)
      case Failed => Failed
      case Parsed(port, s1) =>
        match ReadAddress(c, s1) {
          case Failed => Failed
          case Parsed(a, rest) => Parsed((a, port), rest)
        }
    else
      match ReadAddress(c, s)
      case Failed => Failed
      case Parsed(a, s1) =>
        match ReadPort(s1) {
          case Failed => Failed
          case Parsed(port, rest) => Parsed((a, port), rest)
        }
  }

  // ---------------------------------------------------------------------------------------------
  // Round trip
  // ---------------------------------------------------------------------------------------------

  /** The addresses that survive being written and read again. */
  predicate Canonical(c: Codec, a: Address) {
    match a
    case IPv4(_) => true
    case IPv6(ip) => !Mapped(ip)
    case Domain(name) => 1 <= |name| <= 255 && ValidDomain(name) && !IpLike(c, name)
  }

  lemma DomainRoundTrip(c: Codec, name: bytes, rest: bytes)
    requires c.Valid() && |name| <= 256
    ensures var w: bytes := [if |name| == 256 then 0 else |name|] + name;
            if Canonical(c, Domain(name)) then ReadDomain(c, w + rest) == Parsed(Domain(name), rest)
            else ReadDomain(c, w + rest).Parsed? ==> ReadDomain(c, w + rest).value != Domain(name)
  {
    var w: bytes := [if |name| == 256 then 0 else |name|] + name;
    if 1 <= |name| <= 255 {
      assert (w + rest)[1..1 + |name|] == name;
      assert (w + rest)[1 + |name|..] == rest;
    }
  }

  /** Digits, letters, and three signs. */
  predicate DomainChar(c: char) {
    '0' <= c <= '9' || 'a' <= c <= 'z' || 'A' <= c <= 'Z' || c in {'-', '.', '_'}
  }

  /**
   * What is read for a name of 1 to 255 bytes behind its length: the IP address it spells, if it starts
   * like one; else the name, if it has no other characters than a domain may; else nothing.
   */
  lemma DomainRead(c: Codec, name: bytes, rest: bytes)
    requires 1 <= |name| <= 255
    ensures ReadDomain(c, [|name|] + name + rest) ==
      if (name[0] as char == '[' || '0' <= name[0] as char <= '9') && c.ipText(name).Some?
      then Parsed(c.ipText(name).value, rest)
      else if forall i :: 0 <= i < |name| ==> DomainChar(name[i] as char) then Parsed(Domain(name), rest)
      else Failed
  {
    var s := [|name|] + name + rest;
    assert s[1..1 + |name|] == name && s[1 + |name|..] == rest;
    assert forall i :: 0 <= i < |name| ==> (DomainByte(name[i]) <==> DomainChar(name[i] as char));
  }

  /** An address is read back as it was written, whatever follows it; any other is never read back. */
  lemma AddressRoundTrip(c: Codec, a: Address, rest: bytes)
    requires c.Valid() && WriteAddress(c, a).Some?
    ensures var r := ReadAddress(c, WriteAddress(c, a).value + rest);
            if Canonical(c, a) then r == Parsed(a, rest) else r.Parsed? ==> r.value != a
  {
    var s := WriteAddress(c, a).value + rest;
    match a
    case IPv4(ip) =>
      assert s[1..5] == ip && s[5..] == rest;
    case IPv6(ip) =>
      assert s[1..17] == ip && s[17..] == rest;
    case Domain(name) =>
      var w: bytes := [if |name| == 256 then 0 else |name|] + name;
      assert s[1..] == w + rest;
      DomainRoundTrip(c, name, rest);
  }

  /** The same with a port, in front or behind. */
  lemma AddressPortRoundTrip(c: Codec, a: Address, port: u16, rest: bytes)
    requires c.Valid() && WriteAddressPort(c, a, port).Some?
    ensures ReadAddressPort(c, WriteAddressPort(c, a, port).value + rest) == Parsed((a, port), rest)
            <==> Canonical(c, a)
  {
    var w := WriteAddress(c, a).value;
    var p := PutU16(port);
    if c.portFirst {
      Assoc(p, w, rest);
      assert (p + (w + rest))[2..] == w + rest;
      AddressRoundTrip(c, a, rest);
    } else {
      Assoc(w, p, rest);
      assert (p + rest)[2..] == rest;
      AddressRoundTrip(c, a, p + rest);
    }
  }

  /** Every domain of 256 bytes is written, and read back as an error. */
  lemma LongDomainIsLost(c: Codec, name: bytes, port: u16, rest: bytes)
    requires c.Valid() && |name| == 256
    ensures var w := WriteAddressPort(c, Domain(name), port);
            w.Some? && ReadAddressPort(c, w.value + rest) == Failed
  {
    var w, p := WriteAddress(c, Domain(name)).value, PutU16(port);
    if c.portFirst {
      Assoc(p, w, rest);
      assert (p + (w + rest))[2..] == w + rest;
    } else {
      Assoc(w, p, rest);
    }
  }
}
