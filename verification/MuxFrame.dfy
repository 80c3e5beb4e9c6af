/** Frame metadata of the Mux.Cool protocol: printer and parser (common/mux/frame.go). */
module MuxFrames {
  import opened Bytes
  import opened Buffers
  import opened MultiBuffers
  import opened Addresses

  const NEW: byte := 1
  const KEEP: byte := 2
  const END: byte := 3
  const KEEP_ALIVE: byte := 4

  const NETWORK_TCP: byte := 1
  const NETWORK_UDP: byte := 2

  const META_LIMIT := 512

  /**
   * The address parser of the package: all that is asked of a parser below holds of it, whatever
   * net.ParseIP is, as long as it gives IP addresses only.
   */
  function MuxCodec(ipText: bytes -> Option<Address>): (c: Codec)
    ensures c.portFirst && (c.Valid() <==> forall t :: ipText(t).Some? ==> !ipText(t).value.Domain?)
  {
    Codec(1, 2, 3, true, ipText)
  }

  type GlobalId = s: bytes | |s| == 8 witness [0, 0, 0, 0, 0, 0, 0, 0]

  const NO_ID: GlobalId := [0, 0, 0, 0, 0, 0, 0, 0]

  datatype Target = NoTarget | Target(udp: bool, address: Address, port: u16)

  /** The option byte is kept as its data bit, its error bit and the six bits nobody reads. */
  datatype Option8 = Option8(data: bool, error: bool, other: byte) {
    predicate Valid() {
      other < 64
    }

    function Value(): byte
      requires Valid()
    {
      (if data then 1 else 0) + (if error then 2 else 0) + 4 * other as int
    }
  }

  /** The bits of an option byte. */
  function OptionOf(b: byte): (o: Option8)
    ensures o.Valid() && o.Value() == b
  {
    Option8(b % 2 == 1, b / 2 % 2 == 1, b / 4)
  }

  lemma OptionUnique(o: Option8)
    requires o.Valid()
    ensures OptionOf(o.Value()) == o
  {
    var p := OptionOf(o.Value());
    assert p.Value() == o.Value();
  }

  datatype Meta = Meta(id: u16, status: byte, option: Option8, target: Target, globalId: GlobalId) {
    predicate Valid() {
      option.Valid() && (status == NEW ==> target.Target?)
    }
  }

  /** The UDP address that a data buffer carries, if any. */
  type UdpTag = Option<(Address, u16)>

  // ---------------------------------------------------------------------------------------------
  // Printing
  // ---------------------------------------------------------------------------------------------

  function Fixed(m: Meta): (r: bytes)
    requires m.option.Valid()
    ensures |r| == 4
  {
    PutU16(m.id) + [m.status, m.option.Value()]
  }

  function OrNothing(w: Option<bytes>): bytes {
    if w.Some? then w.value else []
  }

  /** What follows the fixed fields; nothing at all if the target cannot be written. */
  function Variable(c: Codec, m: Meta, udp: UdpTag): Option<bytes>
    requires m.Valid()
  {
    if m.status == NEW then
      match WriteAddressPort(c, m.target.address, m.target.port)
      case None => None
      case Some(w) =>
        Some([if m.target.udp then NETWORK_UDP else NETWORK_TCP] + w + (if udp.Some? then m.globalId else []))
    else if udp.Some? then
      Some([NETWORK_UDP] + (if WriteAddress(c, udp.value.0).Some? then
                              OrNothing(WriteAddressPort(c, udp.value.0, udp.value.1))
                            else PutU16(udp.value.1)))
    else
      Some([])
  }

  /** The metadata, without the length in front. */
  function MetaBody(c: Codec, m: Meta, udp: UdpTag): Option<bytes>
    requires m.Valid()
  {
    match Variable(c, m, udp)
    case None => None
    case Some(v) => Some(Fixed(m) + v)
  }

  /** No metadata is longer than 273 bytes, so the reader's limit of 512 is never met. */
  lemma MetaBodyShort(c: Codec, m: Meta, udp: UdpTag)
    requires m.Valid() && MetaBody(c, m, udp).Some?
    ensures 4 <= |MetaBody(c, m, udp).value| <= 273
  {
  }

  function MetaFrame(c: Codec, m: Meta, udp: UdpTag): (r: bytes)
    requires m.Valid() && MetaBody(c, m, udp).Some?
  {
    MetaBodyShort(c, m, udp);
    PutU16(|MetaBody(c, m, udp).value|) + MetaBody(c, m, udp).value
  }

  /** Appends what follows the fixed fields. */
  method WriteVariable(c: Codec, m: Meta, udp: UdpTag, b: Buffer) returns (ok: bool)
    requires m.Valid() && c.portFirst
    requires b.Valid() && b.end + 269 <= b.v.Length
    modifies b`end, b.v
    ensures b.Valid()
    ensures ok == Variable(c, m, udp).Some?
    ensures ok ==> b.Contents() == old(b.Contents()) + Variable(c, m, udp).value
  {
    ok := true;
    if m.status == NEW {
      var w := WriteAddressPort(c, m.target.address, m.target.port);
      if w == None {
        return false;
      }
      var out := [if m.target.udp then NETWORK_UDP else NETWORK_TCP] + w.value;
      out := out + if udp.Some? then m.globalId else [];
      b.WriteAll(out);
    } else {
      var out: bytes := [];
      if udp.Some? {
        var w := WriteAddressPort(c, udp.value.0, udp.value.1);
        out := [NETWORK_UDP] + if w.Some? then w.value else PutU16(udp.value.1);
      }
      b.WriteAll(out);
    }
  }

  /** Appends the metadata without its length. */
  method WriteBody(c: Codec, m: Meta, udp: UdpTag, b: Buffer) returns (ok: bool)
    requires m.Valid() && c.portFirst
    requires b.Valid() && b.end + 273 <= b.v.Length
    modifies b`end, b.v
    ensures b.Valid()
    ensures ok == MetaBody(c, m, udp).Some?
    ensures ok ==> b.Contents() == old(b.Contents()) + MetaBody(c, m, udp).value
  {
    b.WriteAll(Fixed(m));
    ok := WriteVariable(c, m, udp, b);
    if ok {
      Assoc(old(b.Contents()), Fixed(m), Variable(c, m, udp).value);
    }
  }

  /** Appends the metadata to a buffer; the length is filled in last. */
  method WriteTo(c: Codec, m: Meta, udp: UdpTag, b: Buffer) returns (ok: bool)
    requires m.Valid() && c.portFirst
    requires b.Valid() && b.end + 275 <= b.v.Length
    modifies b`end, b.v
    ensures b.Valid()
    ensures ok == MetaBody(c, m, udp).Some?
    ensures ok ==> b.Contents() == old(b.Contents()) + MetaFrame(c, m, udp)
  {
    var at := b.end;
    b.Extend(2);
    var len0 := b.end;
    ok := WriteBody(c, m, udp, b);
    if ok {
      MetaBodyShort(c, m, udp);
      FillLength(b, at, len0, MetaBody(c, m, udp).value, old(b.Contents()));
    }
  }

  /** The length of what was written behind the two reserved bytes goes into these. */
  method FillLength(b: Buffer, at: nat, len0: nat, ghost body: bytes, ghost before: bytes)
    requires b.Valid() && b.start <= at && len0 == at + 2 && len0 <= b.end && |body| < 0x1_0000
    requires |before| == at - b.start && b.Contents() == (before + Zeros(2)) + body
    modifies b.v
    ensures b.Contents() == before + (PutU16(|body|) + body)
  {
    PatchLength(before, b.Contents(), body);
    var length := PutU16(b.end - len0);
    b.Patch(at, length);
    Assoc(before, length, body);
  }

  lemma PatchLength(before: bytes, after: bytes, body: bytes)
    requires after == (before + Zeros(2)) + body
    ensures |after| == |before| + 2 + |body|
    ensures after[..|before|] == before
    ensures after[|before| + 2..] == body
  {
  }

  // ---------------------------------------------------------------------------------------------
  // Parsing
  // ---------------------------------------------------------------------------------------------

  datatype MetaResult = Bad | Good(meta: Meta)

  predicate CarriesTarget(b: bytes)
    requires |b| >= 4
  {
    b[2] == NEW || (b[2] == KEEP && |b| > 4 && b[4] == NETWORK_UDP)
  }

  function ParseMeta(c: Codec, b: bytes): MetaResult {
    if |b| < 4 then Bad
    else
      var bare := Meta(U16(b[0], b[1]), b[2], OptionOf(b[3]), NoTarget, NO_ID);
      if !CarriesTarget(b) then Good(bare)
      else if |b| < 8 then Bad
      else
        match ReadAddressPort(c, b[5..])
        case Failed => Bad
        case Parsed((a, port), rest) =>
          if b[4] != NETWORK_TCP && b[4] != NETWORK_UDP then Bad
          else
            var m := bare.(target := Target(b[4] == NETWORK_UDP, a, port));
            if b[2] == NEW && m.option.data && m.target.udp && |rest| >= 8 then
              Good(m.(globalId := rest[..8]))
            else
              Good(m)
  }

  /** What the reader of a frame learns from metadata written with the given UDP tag. */
  function Received(m: Meta, udp: UdpTag): Meta
    requires m.Valid()
  {
    if m.status == NEW then
      m.(globalId := if m.option.data && m.target.udp && udp.Some? then m.globalId else NO_ID)
    else if m.status == KEEP && udp.Some? then
      m.(target := Target(true, udp.value.0, udp.value.1), globalId := NO_ID)
    else
      m.(target := NoTarget, globalId := NO_ID)
  }

  /** Only canonical addresses are written. */
  predicate CanonicalMeta(c: Codec, m: Meta, udp: UdpTag) {
    && (m.status == NEW && m.target.Target? ==> Canonical(c, m.target.address))
    && (m.status == KEEP && udp.Some? ==> Canonical(c, udp.value.0))
  }

  lemma AddressPortLength(c: Codec, a: Address, port: u16)
    requires Canonical(c, a)
    ensures WriteAddressPort(c, a, port).Some? && |WriteAddressPort(c, a, port).value| >= 5
  {
  }

  /** A written target is parsed back, with whatever follows it. */
  lemma TargetRoundTrip(c: Codec, f: bytes, network: byte, a: Address, port: u16, rest: bytes)
    requires c.Valid() && Canonical(c, a) && |f| == 4
    requires f[2] == NEW || (f[2] == KEEP && network == NETWORK_UDP)
    requires WriteAddressPort(c, a, port).Some?
    ensures var b := f + ([network] + WriteAddressPort(c, a, port).value + rest);
            && |b| >= 8 && CarriesTarget(b) && b[..4] == f && b[4] == network
            && ReadAddressPort(c, b[5..]) == Parsed((a, port), rest)
  {
    AddressPortLength(c, a, port);
    AddressPortRoundTrip(c, a, port, rest);
    TargetSlices(f, network, WriteAddressPort(c, a, port).value, rest);
  }

  lemma TargetSlices(f: bytes, network: byte, w: bytes, rest: bytes)
    requires |f| == 4
    ensures var b := f + ([network] + w + rest);
            |b| == 5 + |w| + |rest| && b[..4] == f && b[4] == network && b[5..] == w + rest && b[2] == f[2]
  {
  }

  /** Parsing what was printed gives back the metadata. */
  lemma MetaRoundTrip(c: Codec, m: Meta, udp: UdpTag)
    requires c.Valid() && m.Valid() && CanonicalMeta(c, m, udp)
    ensures MetaBody(c, m, udp).Some?
    ensures ParseMeta(c, MetaBody(c, m, udp).value) == Good(Received(m, udp))
  {
    var f := Fixed(m);
    OptionUnique(m.option);
    assert f[2] == m.status && U16(f[0], f[1]) == m.id && OptionOf(f[3]) == m.option;
    if m.status == NEW {
      var t := m.target;
      AddressPortLength(c, t.address, t.port);
      TargetRoundTrip(c, f, if t.udp then NETWORK_UDP else NETWORK_TCP, t.address, t.port,
                      if udp.Some? then m.globalId else []);
      assert udp.Some? ==> m.globalId[..8] == m.globalId;
    } else if m.status == KEEP && udp.Some? {
      AddressPortLength(c, udp.value.0, udp.value.1);
      TargetRoundTrip(c, f, NETWORK_UDP, udp.value.0, udp.value.1, []);
      var w := WriteAddressPort(c, udp.value.0, udp.value.1).value;
      assert [NETWORK_UDP] + w + [] == [NETWORK_UDP] + w;
    } else {
      var v := Variable(c, m, udp).value;
      assert (f + v)[2] == m.status && (f + v)[0] == f[0] && (f + v)[1] == f[1] && (f + v)[3] == f[3];
    }
  }

  // ---------------------------------------------------------------------------------------------
  // The bytes on the wire
  // ---------------------------------------------------------------------------------------------

  function AddressBytes(a: Address): bytes
    requires a.Domain? ==> |a.name| <= 255
  {
    match a
    case IPv4(ip) => [0x01] + ip
    case Domain(name) => [0x02, |name|] + name
    case IPv6(ip) => [0x03] + ip
  }

  /** The domains to be written, if any, fit the byte for their length. */
  predicate Short(m: Meta, udp: UdpTag) {
    && (m.status == 0x01 && m.target.Target? && m.target.address.Domain? ==> |m.target.address.name| <= 255)
    && (udp.Some? && udp.value.0.Domain? ==> |udp.value.0.name| <= 255)
  }

  /** What stands behind the fixed fields: network, port and address, and a Global ID in a tagged New frame. */
  function TargetBytes(m: Meta, udp: UdpTag): bytes
    requires m.Valid() && Short(m, udp)
  {
    if m.status == 0x01 then
      if m.target.NoTarget? then []
      else [if m.target.udp then 0x02 else 0x01, m.target.port / 256, m.target.port % 256]
           + AddressBytes(m.target.address) + (if udp.Some? then m.globalId else [])
    else if udp.Some? then [0x02, udp.value.1 / 256, udp.value.1 % 256] + AddressBytes(udp.value.0)
    else []
  }

  /** Metadata byte for byte. */
  lemma MetaOnWire(ipText: bytes -> Option<Address>, m: Meta, udp: UdpTag)
    requires m.Valid() && Short(m, udp)
    ensures var option := (if m.option.data then 1 else 0) + (if m.option.error then 2 else 0) + 4 * m.option.other;
      MetaBody(MuxCodec(ipText), m, udp) ==
      Some([m.id / 256, m.id % 256, m.status, option] + TargetBytes(m, udp))
  {
    var c := MuxCodec(ipText);
    assert Fixed(m) == [m.id / 256, m.id % 256, m.status, m.option.Value()];
    if m.status == NEW {
      AddressOnWire(c, ipText, m.target.address, m.target.port);
      var w, t := WriteAddressPort(c, m.target.address, m.target.port).value, AddressBytes(m.target.address);
      var n: byte := if m.target.udp then 2 else 1;
      assert [n] + w == [n, m.target.port / 256, m.target.port % 256] + t;
    } else if udp.Some? {
      AddressOnWire(c, ipText, udp.value.0, udp.value.1);
      assert [2] + WriteAddressPort(c, udp.value.0, udp.value.1).value == TargetBytes(m, udp);
    } else {
      assert Variable(c, m, udp) == Some([]);
    }
  }

  lemma AddressOnWire(c: Codec, ipText: bytes -> Option<Address>, a: Address, port: u16)
    requires c == MuxCodec(ipText) && (a.Domain? ==> |a.name| <= 255)
    ensures WriteAddress(c, a) == Some(AddressBytes(a))
    ensures WriteAddressPort(c, a, port) == Some([port / 256, port % 256] + AddressBytes(a))
  {
  }

  /** The frames of a session behind its first one, byte for byte. */
  lemma LaterFramesOnWire(ipText: bytes -> Option<Address>, id: u16, target: Target, g: GlobalId, error: bool)
    ensures MetaFrame(MuxCodec(ipText), Meta(id, KEEP, Option8(true, false, 0), target, g), None) ==
            [0, 4, id / 256, id % 256, 0x02, 0x01]
    ensures MetaFrame(MuxCodec(ipText), Meta(id, END, Option8(false, error, 0), NoTarget, NO_ID), None) ==
            [0, 4, id / 256, id % 256, 0x03, if error then 0x02 else 0x00]
  {
    var keep := Meta(id, KEEP, Option8(true, false, 0), target, g);
    var end := Meta(id, END, Option8(false, error, 0), NoTarget, NO_ID);
    MetaOnWire(ipText, keep, None);
    MetaOnWire(ipText, end, None);
  }

  /** Metadata of up to 512 bytes that are all there is parsed; longer metadata is refused. */
  lemma LengthLimit(c: Codec, s: bytes)
    requires |s| >= 2
    ensures var n := (s[0] as int) * 256 + s[1] as int;
      && (n > 512 || |s| < 2 + n ==> FrontMeta(c, s).Failure?)
      && (n <= 512 && 2 + n <= |s| ==>
            FrontMeta(c, s) == match ParseMeta(c, s[2..2 + n]) case Bad => Failure(false) case Good(m) => Success(m))
  {
  }

  datatype Unmarshalled = Failure(eof: bool) | Success(meta: Meta)

  /** The metadata at the front of a stream. */
  function FrontMeta(c: Codec, s: bytes): Unmarshalled {
    if |s| < 2 then Failure(s == [])
    else
      var n := U16(s[0], s[1]);
      if n > META_LIMIT || |s| < 2 + n then Failure(n <= META_LIMIT && n > 0 && |s| == 2)
      else match ParseMeta(c, s[2..2 + n])
        case Bad => Failure(false)
        case Good(m) => Success(m)
  }

  /** Reads the metadata of the next frame; on success the stream stands right behind it. */
  method Unmarshal(c: Codec, reader: BufferedReader) returns (r: Unmarshalled)
    requires reader.Valid()
    modifies reader
    ensures reader.Valid()
    ensures r == FrontMeta(c, old(reader.Remaining()))
    ensures r.Success? ==>
              var s := old(reader.Remaining());
              reader.Remaining() == s[2 + U16(s[0], s[1])..]
  {
    ghost var s := reader.Remaining();
    var h, status := reader.ReadFull(2);
    if status != Ok {
      return Failure(status == Eof);
    }
    var n := U16(h[0], h[1]);
    assert h[0] == s[0] && h[1] == s[1] && reader.Remaining() == s[2..];
    if n > META_LIMIT {
      return Failure(false);
    }
    var b;
    b, status := reader.ReadFull(n);
    if status != Ok {
      return Failure(status == Eof);
    }
    assert b == s[2..][..n] == s[2..2 + n];
    assert reader.Remaining() == s[2..][n..] == s[2 + n..];
    match ParseMeta(c, b)
    case Bad => r := Failure(false);
    case Good(m) => r := Success(m);
  }
}
