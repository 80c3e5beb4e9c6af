/**
 * The TLS filter shared by both directions of a Vision connection. It looks at the first packets
 * for a ClientHello or a ServerHello and decides whether the inner connection is TLS 1.3 with a
 * cipher suite that allows direct copy. Offsets and constants are those of sections 4.1.3, 4.2.1
 * and 5.1 of RFC 8446.
 */
module TlsFilter {
  import opened Bytes

  const SUPPORTED_VERSIONS: bytes := [0x00, 0x2b, 0x00, 0x02, 0x03, 0x04]
  const CLIENT_HANDSHAKE: bytes := [0x16, 0x03]
  const SERVER_HANDSHAKE: bytes := [0x16, 0x03, 0x03]
  const APPLICATION_DATA: bytes := [0x17, 0x03, 0x03]

  const CLIENT_HELLO: byte := 1
  const SERVER_HELLO: byte := 2

  /**
   * One entry of a MultiBuffer, which may be nil. `beyond` is the 16-bit value found in the
   * backing array when a cipher suite is read past the end of the content.
   */
  datatype Slot = Nil | Slot(data: bytes, beyond: u16) {
    function Data(): bytes {
      if Nil? then [] else data
    }
  }

  datatype Filter = Filter(
    toFilter: int, enableXtls: bool, isTls12: bool, isTls: bool, cipher: u16, remaining: int)

  const FRESH_FILTER := Filter(8, false, false, false, 0, -1)

  predicate At(s: bytes, pattern: bytes, i: int) {
    0 <= i && i + |pattern| <= |s| && s[i..i + |pattern|] == pattern
  }

  predicate Contains(s: bytes, pattern: bytes) {
    exists i :: 0 <= i <= |s| && At(s, pattern, i)
  }

  predicate IsServerHello(b: bytes) {
    |b| >= 6 && b[..3] == SERVER_HANDSHAKE && b[5] == SERVER_HELLO
  }

  predicate IsClientHello(b: bytes) {
    |b| >= 6 && b[..2] == CLIENT_HANDSHAKE && b[5] == CLIENT_HELLO
  }

  /** The suites of the table except TLS_AES_128_CCM_8_SHA256. */
  predicate DirectSuite(cipher: u16) {
    0x1301 <= cipher <= 0x1304
  }

  /** The cipher suite behind the session id of a ServerHello. */
  function SuiteOf(b: bytes, beyond: u16): u16
    requires |b| >= 44
  {
    var at := b[43] as int + 44;
    if at + 2 <= |b| then U16(b[at], b[at + 1]) else beyond
  }

  function Classify(f: Filter, b: bytes, beyond: u16): Filter {
    if IsServerHello(b) then
      var total := U16(b[3], b[4]) + 5;
      f.(remaining := total, isTls12 := true, isTls := true,
         cipher := if |b| >= 79 && total >= 79 then SuiteOf(b, beyond) else f.cipher)
    else if IsClientHello(b) then f.(isTls := true)
    else f
  }

  /** The verdict on the part of the ServerHello inside b. */
  function Judge(f: Filter, b: bytes): Filter {
    if f.remaining <= 0 then f
    else
      var g := f.(remaining := f.remaining - |b|);
      if Contains(b[..Min(f.remaining, |b|)], SUPPORTED_VERSIONS) then
        g.(toFilter := 0, enableXtls := g.enableXtls || DirectSuite(g.cipher))
      else if g.remaining <= 0 then g.(toFilter := 0)
      else g
  }

  /** Whether the verdict on b ends the filtering call. */
  predicate Conclusive(f: Filter, b: bytes) {
    f.remaining > 0 &&
    (Contains(b[..Min(f.remaining, |b|)], SUPPORTED_VERSIONS) || f.remaining <= |b|)
  }

  function FilterOne(f: Filter, b: bytes, beyond: u16): Filter {
    Judge(Classify(f.(toFilter := f.toFilter - 1), b, beyond), b)
  }

  predicate StopsAt(f: Filter, b: bytes, beyond: u16) {
    Conclusive(Classify(f.(toFilter := f.toFilter - 1), b, beyond), b)
  }

  function FilterAll(f: Filter, mb: seq<Slot>): Filter
    decreases |mb|
  {
    if mb == [] then f
    else if mb[0].Nil? then FilterAll(f, mb[1..])
    else
      var g := FilterOne(f, mb[0].data, mb[0].beyond);
      if StopsAt(f, mb[0].data, mb[0].beyond) then g else FilterAll(g, mb[1..])
  }

  /** Both callers filter only while packets are left to filter. */
  function Observe(f: Filter, mb: seq<Slot>): Filter {
    if f.toFilter > 0 then FilterAll(f, mb) else f
  }

  // ---------------------------------------------------------------------------------------------
  // What every run keeps
  // ---------------------------------------------------------------------------------------------

  predicate Inv(f: Filter) {
    && (f.remaining > 0 ==> f.isTls && f.isTls12)
    && (f.enableXtls ==> f.isTls && f.isTls12 && DirectSuite(f.cipher) && f.toFilter <= 0)
  }

  lemma {:induction false} FilterAllKeeps(f: Filter, mb: seq<Slot>)
    requires Inv(f) && !f.enableXtls
    ensures Inv(FilterAll(f, mb))
    ensures f.isTls ==> FilterAll(f, mb).isTls
    ensures f.isTls12 ==> FilterAll(f, mb).isTls12
    ensures FilterAll(f, mb).toFilter <= f.toFilter || FilterAll(f, mb).toFilter <= 0
    decreases |mb|
  {
    if mb != [] {
      if mb[0].Nil? {
        FilterAllKeeps(f, mb[1..]);
      } else if !StopsAt(f, mb[0].data, mb[0].beyond) {
        FilterAllKeeps(FilterOne(f, mb[0].data, mb[0].beyond), mb[1..]);
      }
    }
  }

  /** The invariant behind direct copy, and what filtering never takes back. */
  lemma ObserveKeeps(f: Filter, mb: seq<Slot>)
    requires Inv(f)
    ensures var g := Observe(f, mb);
            && Inv(g)
            && (f.isTls ==> g.isTls) && (f.isTls12 ==> g.isTls12) && (f.enableXtls ==> g.enableXtls)
            && (f.toFilter <= 0 ==> g == f)
            && (g.toFilter > 0 ==> f.toFilter >= g.toFilter)
  {
    if f.toFilter > 0 {
      FilterAllKeeps(f, mb);
    }
  }

  // ---------------------------------------------------------------------------------------------
  // A ServerHello as RFC 8446 lays it out
  // ---------------------------------------------------------------------------------------------

  /** version, random, session id, suite and compression method of section 4.1.3. */
  function HelloBody(random: bytes, sid: bytes, suite: u16, exts: bytes): bytes
    requires |sid| < 0x100 && |exts| < 0x1_0000
  {
    [3, 3] + random + [|sid|] + sid + PutU16(suite) + [0] + PutU16(|exts|) + exts
  }

  /** The handshake message inside one record of section 5.1. */
  function HelloRecord(random: bytes, sid: bytes, suite: u16, exts: bytes): bytes
    requires |sid| < 0x100 && |exts| < 0x1_0000
    requires |HelloBody(random, sid, suite, exts)| + 4 < 0x1_0000
  {
    var body := HelloBody(random, sid, suite, exts);
    [0x16, 0x03, 0x03] + PutU16(|body| + 4) + [0x02, 0x00] + PutU16(|body|) + body
  }

  lemma HelloFields(random: bytes, sid: bytes, suite: u16, exts: bytes)
    requires |random| == 32 && |sid| < 0x100 && |exts| < 0x1_0000
    requires |HelloBody(random, sid, suite, exts)| + 4 < 0x1_0000
    ensures var r := HelloRecord(random, sid, suite, exts);
            && |r| == 49 + |sid| + |exts|
            && r[..3] == [0x16, 0x03, 0x03]
            && U16(r[3], r[4]) + 5 == |r|
            && r[5] == 0x02
            && r[43] == |sid|
            && U16(r[44 + |sid|], r[45 + |sid|]) == suite
            && r[|r| - |exts|..] == exts
  {
    var body := HelloBody(random, sid, suite, exts);
    var r := HelloRecord(random, sid, suite, exts);
    assert r[9..] == body;
    assert body[34] == |sid|;
    assert body[35 + |sid|] == PutU16(suite)[0] && body[36 + |sid|] == PutU16(suite)[1];
  }

  lemma ContainsSuffix(s: bytes, t: bytes, pattern: bytes)
    requires Contains(t, pattern)
    requires |t| <= |s| && s[|s| - |t|..] == t
    ensures Contains(s, pattern)
  {
    var i :| 0 <= i <= |t| && At(t, pattern, i);
    var k := |s| - |t| + i;
    assert s[k..k + |pattern|] == t[i..i + |pattern|];
    assert At(s, pattern, k);
  }

  /**
   * A TLS 1.3 ServerHello record at the start of a packet is recognised: its cipher suite is the
   * one recorded, filtering ends, and direct copy is enabled exactly for the suites that allow it.
   * Records shorter than 79 bytes are not asked for their suite, so the one known before decides.
   */
  lemma ServerHelloRecognised(
    f: Filter, random: bytes, sid: bytes, suite: u16, exts: bytes, more: bytes, beyond: u16)
    requires !f.enableXtls
    requires |random| == 32 && |sid| < 0x100 && |exts| < 0x1_0000
    requires |HelloBody(random, sid, suite, exts)| + 4 < 0x1_0000
    requires Contains(exts, [0x00, 0x2b, 0x00, 0x02, 0x03, 0x04])
    ensures var r := HelloRecord(random, sid, suite, exts);
            var g := FilterOne(f, r + more, beyond);
            && g.isTls && g.isTls12 && g.toFilter == 0
            && StopsAt(f, r + more, beyond)
            && g.cipher == (if |r| >= 79 then suite else f.cipher)
            && (g.enableXtls <==> 0x1301 <= g.cipher <= 0x1304)
  {
    var r := HelloRecord(random, sid, suite, exts);
    var b := r + more;
    HelloFields(random, sid, suite, exts);
    assert b[..3] == r[..3];
    ContainsSuffix(r, exts, SUPPORTED_VERSIONS);
    assert b[..|r|] == r;
    assert b[3] == r[3] && b[4] == r[4] && b[5] == r[5];
    if |r| >= 79 {
      assert b[43] == |sid| && b[44 + |sid|] == r[44 + |sid|] && b[45 + |sid|] == r[45 + |sid|];
    }
  }

  // ---------------------------------------------------------------------------------------------
  // A ClientHello as RFC 8446 lays it out
  // ---------------------------------------------------------------------------------------------

  predicate OpensClientHello(b: bytes) {
    |b| >= 6 && b[0] == 0x16 && b[1] == 0x03 && b[5] == 0x01
  }

  predicate OpensServerHello(b: bytes) {
    |b| >= 6 && b[0] == 0x16 && b[1] == 0x03 && b[2] == 0x03 && b[5] == 0x02
  }

  lemma Hellos(b: bytes)
    ensures IsClientHello(b) <==> OpensClientHello(b)
    ensures IsServerHello(b) <==> OpensServerHello(b)
  {
    if |b| >= 6 {
      assert b[..2] == [b[0], b[1]];
      assert b[..3] == [b[0], b[1], b[2]];
    }
  }

  /** version, random, session id, suites, compression methods and extensions of section 4.1.2. */
  function ClientHelloBody(random: bytes, sid: bytes, suites: bytes, methods: bytes, exts: bytes): bytes
    requires |sid| < 0x100 && |suites| < 0x1_0000 && |methods| < 0x100 && |exts| < 0x1_0000
  {
    [3, 3] + random + [|sid|] + sid + PutU16(|suites|) + suites + [|methods|] + methods + PutU16(|exts|) + exts
  }

  /** The handshake message inside one record of section 5.1, whose minor version clients vary. */
  function ClientHelloRecord(minor: byte, body: bytes): bytes
    requires |body| + 4 < 0x1_0000
  {
    [0x16, 0x03, minor] + PutU16(|body| + 4) + [0x01, 0x00] + PutU16(|body|) + body
  }

  /**
   * A ClientHello of any record version at the start of a packet, whole and followed by anything,
   * or cut behind its sixth byte, marks the connection as TLS and changes nothing else.
   */
  lemma ClientHelloRecognised(f: Filter, minor: byte, random: bytes, sid: bytes, suites: bytes, methods: bytes,
                              exts: bytes, k: nat, more: bytes, b: bytes, beyond: u16)
    requires |sid| < 0x100 && |suites| < 0x1_0000 && |methods| < 0x100 && |exts| < 0x1_0000
    requires |ClientHelloBody(random, sid, suites, methods, exts)| + 4 < 0x1_0000
    requires var r := ClientHelloRecord(minor, ClientHelloBody(random, sid, suites, methods, exts));
             6 <= k <= |r| && b == r[..k] + more && (k < |r| ==> more == [])
    ensures var g := FilterOne(f, b, beyond);
            && g.isTls && g.isTls12 == f.isTls12 && g.cipher == f.cipher
            && (f.remaining <= 0 ==>
                  g == f.(toFilter := f.toFilter - 1, isTls := true) && !StopsAt(f, b, beyond))
  {
    var r := ClientHelloRecord(minor, ClientHelloBody(random, sid, suites, methods, exts));
    assert forall i :: 0 <= i < k ==> b[i] == r[i];
    Hellos(b);
  }

  /** Any other packet but the start of a ServerHello only counts as one more. */
  lemma OtherPacketOnlyCounts(f: Filter, b: bytes, beyond: u16)
    requires f.remaining <= 0 && !OpensServerHello(b)
    requires |b| < 6 || b[0] != 0x16 || b[1] != 0x03 || b[5] != 0x01
    ensures FilterOne(f, b, beyond) == f.(toFilter := f.toFilter - 1) && !StopsAt(f, b, beyond)
  {
    Hellos(b);
  }

  lemma OnePacket(f: Filter, p: Slot)
    requires !p.Nil?
    ensures FilterAll(f, [p]) == FilterOne(f, p.data, p.beyond)
  {
    var mb := [p];
    var g := FilterOne(f, p.data, p.beyond);
    assert |mb[1..]| == 0;
    assert FilterAll(g, mb[1..]) == g;
  }

  // ---------------------------------------------------------------------------------------------
  // Runs of packets
  // ---------------------------------------------------------------------------------------------

  /** Packets that are shown to the filter one by one. */
  function Watch(f: Filter, packets: seq<Slot>): Filter
    decreases |packets|
  {
    if packets == [] then f else Watch(Observe(f, [packets[0]]), packets[1..])
  }

  /** One of the packets that are looked at, when `left` more are, starts a ClientHello. */
  predicate HasClientHello(packets: seq<Slot>, left: int) {
    exists i :: 0 <= i < |packets| && i < left && OpensClientHello(packets[i].Data())
  }

  /** Packets without a ServerHello: as many as are left to filter count, one by one. */
  lemma {:induction false} WithoutServerHello(f: Filter, packets: seq<Slot>)
    requires f.remaining <= 0 && f.toFilter >= 0
    requires forall i :: 0 <= i < |packets| ==> !packets[i].Nil? && !OpensServerHello(packets[i].data)
    ensures Watch(f, packets) ==
            f.(toFilter := Max(0, f.toFilter - |packets|), isTls := f.isTls || HasClientHello(packets, f.toFilter))
    decreases |packets|
  {
    if packets != [] {
      var p, rest := packets[0], packets[1..];
      var g := Observe(f, [p]);
      OnePacket(f, p);
      Hellos(p.data);
      assert forall i :: 0 <= i < |rest| ==> rest[i] == packets[i + 1];
      WithoutServerHello(g, rest);
      assert HasClientHello(packets, f.toFilter) <==>
             (f.toFilter > 0 && OpensClientHello(p.data)) || HasClientHello(rest, g.toFilter) by {
        if HasClientHello(rest, g.toFilter) {
          var i :| 0 <= i < |rest| && i < g.toFilter && OpensClientHello(rest[i].Data());
          assert OpensClientHello(packets[i + 1].Data());
        }
        if HasClientHello(packets, f.toFilter) {
          var i :| 0 <= i < |packets| && i < f.toFilter && OpensClientHello(packets[i].Data());
          if i > 0 {
            assert OpensClientHello(rest[i - 1].Data());
          }
        }
      }
    }
  }

  /** A new connection is looked at for eight packets. */
  lemma EightPackets(packets: seq<Slot>)
    requires forall i :: 0 <= i < |packets| ==> !packets[i].Nil? && !OpensServerHello(packets[i].data)
    ensures var g := Watch(FRESH_FILTER, packets);
            && g.toFilter == Max(0, 8 - |packets|)
            && (g.isTls <==> exists i :: 0 <= i < |packets| && i < 8 && OpensClientHello(packets[i].Data()))
            && !g.isTls12 && !g.enableXtls
  {
    WithoutServerHello(FRESH_FILTER, packets);
    assert HasClientHello(packets, 8) <==>
           exists i :: 0 <= i < |packets| && i < 8 && OpensClientHello(packets[i].Data());
  }

  /** While packets are left to filter, it does not matter how they are grouped into calls. */
  lemma {:induction false} GroupingIrrelevant(f: Filter, mb: seq<Slot>)
    requires f.toFilter >= |mb|
    ensures Observe(f, mb) == Watch(f, mb)
    decreases |mb|
  {
    if mb != [] {
      var p, rest := mb[0], mb[1..];
      var g := Observe(f, [p]);
      if p.Nil? {
        var none := [p][1..];
        assert |none| == 0 && FilterAll(f, none) == f;
        GroupingIrrelevant(f, rest);
      } else {
        OnePacket(f, p);
        if StopsAt(f, p.data, p.beyond) {
          FinishedWatch(g, rest);
        } else {
          GroupingIrrelevant(g, rest);
        }
      }
    }
  }

  function Filled(mb: seq<Slot>): nat {
    if mb == [] then 0 else Filled(mb[1..]) + if mb[0].Nil? then 0 else 1
  }

  /** One call looks at every packet it is given, however many were left to filter. */
  lemma {:induction false} WholeCall(f: Filter, mb: seq<Slot>)
    requires f.remaining <= 0 && forall i :: 0 <= i < |mb| ==> !OpensServerHello(mb[i].Data())
    ensures FilterAll(f, mb) ==
            f.(toFilter := f.toFilter - Filled(mb), isTls := f.isTls || HasClientHello(mb, |mb|))
    decreases |mb|
  {
    if mb != [] {
      var p, rest := mb[0], mb[1..];
      assert forall i :: 0 <= i < |rest| ==> rest[i] == mb[i + 1];
      Hellos(p.Data());
      WholeCall(if p.Nil? then f else FilterOne(f, p.data, p.beyond), rest);
      assert HasClientHello(mb, |mb|) <==> OpensClientHello(p.Data()) || HasClientHello(rest, |rest|) by {
        if HasClientHello(rest, |rest|) {
          var i :| 0 <= i < |rest| && i < |rest| && OpensClientHello(rest[i].Data());
          assert OpensClientHello(mb[i + 1].Data());
        }
        if HasClientHello(mb, |mb|) {
          var i :| 0 <= i < |mb| && i < |mb| && OpensClientHello(mb[i].Data());
          if i > 0 {
            assert OpensClientHello(rest[i - 1].Data());
          }
        }
      }
    }
  }

  /** The packets carry the parts of a ServerHello; there may be more behind its last part. */
  ghost predicate Carries(packets: seq<Slot>, parts: seq<bytes>, more: bytes) {
    && |packets| == |parts| > 0 && |parts[|parts| - 1]| > 0
    && (forall i :: 0 <= i < |parts| ==> !packets[i].Nil?)
    && (forall i :: 0 <= i < |parts| - 1 ==> packets[i].data == parts[i])
    && packets[|parts| - 1].data == parts[|parts| - 1] + more
  }

  /** One of the parts that are looked at, when `left` more are, holds the extension whole. */
  ghost predicate HasVersions(parts: seq<bytes>, left: int) {
    exists i :: 0 <= i < |parts| && i < left && Contains(parts[i], SUPPORTED_VERSIONS)
  }

  lemma HasVersionsRest(parts: seq<bytes>, left: int)
    requires parts != []
    ensures HasVersions(parts, left) <==>
            (left > 0 && Contains(parts[0], SUPPORTED_VERSIONS)) || HasVersions(parts[1..], left - 1)
  {
    var rest := parts[1..];
    if HasVersions(rest, left - 1) {
      var i :| 0 <= i < |rest| && i < left - 1 && Contains(rest[i], SUPPORTED_VERSIONS);
      assert Contains(parts[i + 1], SUPPORTED_VERSIONS);
    }
    if HasVersions(parts, left) {
      var i :| 0 <= i < |parts| && i < left && Contains(parts[i], SUPPORTED_VERSIONS);
      if i > 0 {
        assert Contains(rest[i - 1], SUPPORTED_VERSIONS);
      }
    }
  }

  lemma {:induction false} FinishedWatch(f: Filter, packets: seq<Slot>)
    requires f.toFilter <= 0
    ensures Watch(f, packets) == f
    decreases |packets|
  {
    if packets != [] {
      FinishedWatch(f, packets[1..]);
    }
  }

  /** What one part of a ServerHello does; R bytes of it are still to come. */
  lemma OnePart(f: Filter, p: Slot, part: bytes, more: bytes)
    requires !p.Nil? && p.data == part + more && f.remaining > 0 && f.toFilter > 0 && !f.enableXtls
    requires !IsServerHello(p.data) && |part| <= f.remaining && (more != [] ==> |part| == f.remaining)
    ensures var g, found := Observe(f, [p]), Contains(part, SUPPORTED_VERSIONS);
            && g.cipher == f.cipher && g.isTls12 == f.isTls12 && (f.isTls ==> g.isTls)
            && g.remaining == f.remaining - |p.data|
            && g.toFilter == (if found || |part| == f.remaining then 0 else f.toFilter - 1)
            && (g.enableXtls <==> found && DirectSuite(f.cipher))
  {
    OnePacket(f, p);
    assert p.data[..Min(f.remaining, |p.data|)] == part;
  }

  lemma CarriesRest(packets: seq<Slot>, parts: seq<bytes>, more: bytes)
    requires Carries(packets, parts, more) && |parts| > 1
    ensures Carries(packets[1..], parts[1..], more) && Flatten(parts) == parts[0] + Flatten(parts[1..])
    ensures Flatten(parts[1..]) != []
  {
    var ps, qs := packets[1..], parts[1..];
    assert forall i :: 0 <= i < |qs| ==> qs[i] == parts[i + 1] && ps[i] == packets[i + 1];
    FlattenEmpty(qs);
    assert qs[|qs| - 1] != [];
  }

  /** A ServerHello of which the parts are still to come. */
  lemma {:induction false} RestOfServerHello(f: Filter, packets: seq<Slot>, parts: seq<bytes>, more: bytes)
    requires Carries(packets, parts, more) && f.remaining == |Flatten(parts)| && f.toFilter > 0 && !f.enableXtls
    requires forall i :: 0 <= i < |packets| ==> !IsServerHello(packets[i].data)
    ensures var g := Watch(f, packets);
            && g.cipher == f.cipher && g.isTls12 == f.isTls12 && (f.isTls ==> g.isTls)
            && g.toFilter == 0
            && (g.enableXtls <==> DirectSuite(f.cipher) && HasVersions(parts, f.toFilter))
    decreases |parts|
  {
    var p, part, rest := packets[0], parts[0], packets[1..];
    var g := Observe(f, [p]);
    HasVersionsRest(parts, f.toFilter);
    if |parts| == 1 {
      assert |parts[1..]| == 0 && Flatten(parts) == part + [] == part;
      OnePart(f, p, part, more);
      assert Watch(g, rest) == g;
    } else {
      CarriesRest(packets, parts, more);
      OnePart(f, p, part, []);
      assert forall i :: 0 <= i < |rest| ==> rest[i] == packets[i + 1];
      if g.toFilter == 0 {
        FinishedWatch(g, rest);
      } else {
        RestOfServerHello(g, rest, parts[1..], more);
      }
    }
  }

  /** The suite on record after the first packet of a ServerHello of n bytes. */
  function SuiteAfter(f: Filter, p: Slot, n: nat): u16
    requires !p.Nil?
  {
    if |p.data| >= 79 && n >= 79 then SuiteOf(p.data, p.beyond) else f.cipher
  }

  lemma FirstPart(f: Filter, p: Slot, part: bytes, more: bytes, n: nat)
    requires !p.Nil? && p.data == part + more && f.toFilter > 0 && !f.enableXtls
    requires IsServerHello(p.data) && U16(p.data[3], p.data[4]) + 5 == n
    requires |part| <= n && (more != [] ==> |part| == n)
    ensures var g, found := Observe(f, [p]), Contains(part, SUPPORTED_VERSIONS);
            && g.cipher == SuiteAfter(f, p, n) && g.isTls12 && g.isTls && g.remaining == n - |p.data|
            && g.toFilter == (if found || |part| == n then 0 else f.toFilter - 1)
            && (g.enableXtls <==> found && DirectSuite(g.cipher))
  {
    OnePacket(f, p);
    assert p.data[..Min(n, |p.data|)] == part;
  }

  /** The front of a record: what the filter reads in its first packet. */
  lemma HelloFront(random: bytes, sid: bytes, suite: u16, exts: bytes, k: nat, more: bytes, b: bytes)
    requires |random| == 32 && |sid| < 0x100 && |exts| < 0x1_0000
    requires |HelloBody(random, sid, suite, exts)| + 4 < 0x1_0000
    requires var r := HelloRecord(random, sid, suite, exts);
             6 <= k <= |r| && b == r[..k] + more && (k < |r| ==> more == [])
    ensures var r := HelloRecord(random, sid, suite, exts);
            && IsServerHello(b) && U16(b[3], b[4]) + 5 == |r|
            && (46 + |sid| <= k ==> forall beyond :: SuiteOf(b, beyond) == suite)
  {
    var r := HelloRecord(random, sid, suite, exts);
    HelloFields(random, sid, suite, exts);
    assert forall i :: 0 <= i < k ==> b[i] == r[i];
    assert b[..3] == r[..3];
  }

  /**
   * A TLS 1.3 ServerHello record that arrives in any number of packets, cut anywhere behind its
   * sixth byte, with anything behind its end: afterwards the filter is done, the connection counts
   * as TLS 1.2 or later, and direct copy is enabled exactly if the suite on record allows it and
   * one of the parts looked at holds the supported_versions extension whole. The suite on record is
   * that of the ServerHello if the first packet has 79 bytes and reaches behind it.
   */
  lemma ServerHelloInParts(f: Filter, random: bytes, sid: bytes, suite: u16, exts: bytes,
                           packets: seq<Slot>, parts: seq<bytes>, more: bytes)
    requires !f.enableXtls && f.toFilter > 0
    requires |random| == 32 && |sid| < 0x100 && |exts| < 0x1_0000
    requires |HelloBody(random, sid, suite, exts)| + 4 < 0x1_0000
    requires Carries(packets, parts, more) && |parts[0]| >= 6
    requires Flatten(parts) == HelloRecord(random, sid, suite, exts)
    requires forall i :: 0 < i < |packets| ==> !IsServerHello(packets[i].data)
    ensures var g, r, p := Watch(f, packets), HelloRecord(random, sid, suite, exts), packets[0];
            && g.toFilter == 0 && g.isTls && g.isTls12 && g.cipher == SuiteAfter(f, p, |r|)
            && (g.enableXtls <==> DirectSuite(g.cipher) && HasVersions(parts, f.toFilter))
            && (|r| >= 79 && |p.data| >= 79 && |parts[0]| >= 46 + |sid| ==> g.cipher == suite)
  {
    var r, p, part, rest := HelloRecord(random, sid, suite, exts), packets[0], parts[0], packets[1..];
    var g := Observe(f, [p]);
    HasVersionsRest(parts, f.toFilter);
    assert Flatten(parts) == part + Flatten(parts[1..]);
    assert part == r[..|part|];
    var behind := if |parts| == 1 then more else [];
    if |parts| == 1 {
      assert |parts[1..]| == 0 && part == r;
    } else {
      CarriesRest(packets, parts, more);
      assert p.data == part + [];
    }
    HelloFront(random, sid, suite, exts, |part|, behind, p.data);
    FirstPart(f, p, part, behind, |r|);
    if |parts| == 1 {
      assert Watch(g, rest) == g;
    } else if g.toFilter == 0 {
      FinishedWatch(g, rest);
    } else {
      assert forall i :: 0 <= i < |rest| ==> rest[i] == packets[i + 1];
      RestOfServerHello(g, rest, parts[1..], more);
    }
  }

  // ---------------------------------------------------------------------------------------------
  // A ServerHello that is not recognised
  // ---------------------------------------------------------------------------------------------

  /** The byte of the pattern that no other field of the hello below holds. */
  const MARK: byte := 0x2b

  lemma MarkAt(s: bytes, i: int)
    requires At(s, SUPPORTED_VERSIONS, i)
    ensures s[i + 1] == MARK
  {
    assert s[i + 1] == s[i..i + |SUPPORTED_VERSIONS|][1];
  }

  /** Less than the whole extension, behind n bytes without the mark. */
  lemma NotWhole(s: bytes, n: nat)
    requires |s| < n + |SUPPORTED_VERSIONS| && forall j :: 0 <= j < |s| && j <= n ==> s[j] != MARK
    ensures !Contains(s, SUPPORTED_VERSIONS)
  {
    forall i | 0 <= i <= |s| ensures !At(s, SUPPORTED_VERSIONS, i) {
      if At(s, SUPPORTED_VERSIONS, i) {
        MarkAt(s, i);
      }
    }
  }

  lemma NoMark(x: u16, b: bytes)
    requires b == PutU16(x) && x < 0x2b00 && (x < 0x2b || 0x2b < x < 0x12b || 0x12b < x < 0x22b || 0x1300 <= x < 0x132b)
    ensures MARK !in b
  {
  }

  /** The hello below up to its extension. */
  lemma FrontUnmarked(random: bytes, sid: bytes, suite: u16, exts: bytes)
    requires |random| == |sid| == 32 && MARK !in random && MARK !in sid && DirectSuite(suite)
    requires exts == SUPPORTED_VERSIONS
    ensures |HelloBody(random, sid, suite, exts)| == 78
    ensures var r := HelloRecord(random, sid, suite, exts); |r| == 87 && forall j :: 0 <= j <= 81 ==> r[j] != MARK
  {
    var body := HelloBody(random, sid, suite, exts);
    var n, n4, k, c := PutU16(|body|), PutU16(|body| + 4), PutU16(|exts|), PutU16(suite);
    NoMark(|body|, n);
    NoMark(|body| + 4, n4);
    NoMark(|exts|, k);
    NoMark(suite, c);
    var front := [3, 3] + random + [|sid|] + sid + c + [0] + k;
    assert MARK !in front && body == front + exts;
    var r := HelloRecord(random, sid, suite, exts);
    var head := [0x16, 0x03, 0x03] + n4 + [0x02, 0x00] + n;
    assert MARK !in head && r == head + body;
    forall j | 0 <= j <= 81 ensures r[j] != MARK {
      if j < 9 {
        assert r[j] == head[j];
      } else if j < 81 {
        assert r[j] == front[j - 9];
      } else {
        assert r[j] == exts[0];
      }
    }
  }

  /**
   * Any TLS 1.3 ServerHello with a suite that allows direct copy, supported_versions as its only
   * extension and no byte 0x2b elsewhere, cut after three bytes of that extension: the filter ends
   * without enabling direct copy.
   */
  lemma CutExtensionHides(random: bytes, sid: bytes, suite: u16, exts: bytes)
    requires |random| == |sid| == 32 && MARK !in random && MARK !in sid && DirectSuite(suite)
    requires exts == SUPPORTED_VERSIONS
    ensures |HelloBody(random, sid, suite, exts)| == 78
    ensures var r := HelloRecord(random, sid, suite, exts);
            && |r| == 87
            && var g := Watch(FRESH_FILTER, [Slot(r[..84], 0), Slot(r[84..], 0)]);
            && g.toFilter == 0 && g.cipher == suite && !g.enableXtls
            && Watch(FRESH_FILTER, [Slot(r, 0)]).enableXtls
  {
    FrontUnmarked(random, sid, suite, exts);
    var r := HelloRecord(random, sid, suite, exts);
    var parts := [r[..84], r[84..]];
    NotWhole(parts[0], 81);
    NotWhole(parts[1], 0);
    TwoParts(r[..84], r[84..]);
    assert r[..84] + r[84..] == r;
    ServerHelloInParts(FRESH_FILTER, random, sid, suite, exts, [Slot(r[..84], 0), Slot(r[84..], 0)], parts, []);
    WholeExtension(random, sid, suite, exts);
  }

  lemma TwoParts(a: bytes, b: bytes)
    ensures Flatten([a, b]) == a + b
  {
    assert [a, b][1..] == [b] && |[b][1..]| == 0;
    assert Flatten([b]) == b + [] == b;
  }

  lemma WholeExtension(random: bytes, sid: bytes, suite: u16, exts: bytes)
    requires |random| == |sid| == 32 && DirectSuite(suite) && exts == SUPPORTED_VERSIONS
    requires |HelloBody(random, sid, suite, exts)| == 78
    ensures Watch(FRESH_FILTER, [Slot(HelloRecord(random, sid, suite, exts), 0)]).enableXtls
  {
    var r := HelloRecord(random, sid, suite, exts);
    assert At(exts, SUPPORTED_VERSIONS, 0);
    ServerHelloRecognised(FRESH_FILTER, random, sid, suite, exts, [], 0);
    assert r + [] == r;
    OnePacket(FRESH_FILTER, Slot(r, 0));
    assert |[Slot(r, 0)][1..]| == 0;
  }
}
