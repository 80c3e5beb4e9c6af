/**
 * Authenticated chunk streams (common/crypto/auth.go). The cipher, the size codec and the padding
 * generator are arbitrary sequences of operations, the n-th of which is used for the n-th record
 * on both sides.
 */
module Auth {
  import opened Bytes
  import opened MultiBuffers

  datatype Suite = Suite(
    overhead: nat, sizeBytes: nat, maxPad: nat,
    seal: (nat, bytes) -> bytes, open: (nat, bytes) -> Option<bytes>,
    putSize: (nat, u16) -> bytes, getSize: (nat, bytes) -> Option<u16>,
    pad: nat -> nat, filler: nat -> bytes)
  {
    /** The room for payload in one buffer, as the stream writer computes it. */
    function PayloadSize(): int {
      BUF_SIZE - overhead - sizeBytes - maxPad
    }

    ghost predicate Lawful() {
      && sizeBytes > 0 && PayloadSize() > 0
      && (forall n: nat, p: bytes :: |seal(n, p)| == |p| + overhead && open(n, seal(n, p)) == Some(p))
      && (forall n: nat, x: u16 :: |putSize(n, x)| == sizeBytes && getSize(n, putSize(n, x)) == Some(x))
      && (forall n: nat :: pad(n) <= maxPad && |filler(n)| == pad(n))
    }

    /** The n-th record can carry p: it fits in a buffer together with its size. */
    predicate Fits(n: nat, p: bytes) {
      sizeBytes + |p| + overhead + pad(n) <= BUF_SIZE
    }

    function Size(n: nat, p: bytes): int {
      |p| + overhead + pad(n)
    }

    /** The sealed payload and the padding behind it. */
    function Sealed(n: nat, p: bytes): bytes {
      seal(n, p) + filler(n)
    }

    function Record(n: nat, p: bytes): bytes
      requires Fits(n, p)
    {
      putSize(n, Size(n, p)) + Sealed(n, p)
    }

    /** What is sent for p as the n-th record when the k-th padding length is drawn for it. */
    function Drawn(k: nat, n: nat, p: bytes): bytes
      requires Fits(k, p)
    {
      putSize(n, Size(k, p)) + (seal(n, p) + filler(k))
    }

    predicate AllFit(n: nat, ps: seq<bytes>) {
      forall i :: 0 <= i < |ps| ==> Fits(n + i, ps[i])
    }

    /** Those of the packets ps that fit with the padding drawn for them, the first being draw k. */
    function Accepted(k: nat, ps: seq<bytes>): (rs: seq<bytes>)
      ensures |rs| <= |ps|
      decreases |ps|
    {
      if ps == [] then []
      else if Fits(k, ps[0]) then [ps[0]] + Accepted(k + 1, ps[1..])
      else Accepted(k + 1, ps[1..])
    }

    /** What is sent for the packets ps when the k-th padding length and the n-th record are next. */
    function Sent(k: nat, n: nat, ps: seq<bytes>): bytes
      decreases |ps|
    {
      if ps == [] then []
      else if Fits(k, ps[0]) then Drawn(k, n, ps[0]) + Sent(k + 1, n + 1, ps[1..])
      else Sent(k + 1, n, ps[1..])
    }

    lemma {:induction false} AcceptedSnoc(k: nat, ps: seq<bytes>, x: bytes)
      ensures Accepted(k, ps + [x]) == if Fits(k + |ps|, x) then Accepted(k, ps) + [x] else Accepted(k, ps)
      decreases |ps|
    {
      var all := ps + [x];
      if ps == [] {
        assert all[0] == x && all[1..] == [];
      } else {
        assert all[0] == ps[0] && all[1..] == ps[1..] + [x];
        AcceptedSnoc(k + 1, ps[1..], x);
      }
    }

    lemma {:induction false} SentSnoc(k: nat, n: nat, ps: seq<bytes>, x: bytes)
      ensures Sent(k, n, ps + [x]) ==
              if Fits(k + |ps|, x) then Sent(k, n, ps) + Drawn(k + |ps|, n + |Accepted(k, ps)|, x)
              else Sent(k, n, ps)
      decreases |ps|
    {
      var all := ps + [x];
      if ps == [] {
        assert all[0] == x && all[1..] == [];
        if Fits(k, x) {
          assert Drawn(k, n, x) + [] == Drawn(k, n, x) == [] + Drawn(k, n, x);
        }
      } else {
        SentFirst(k, n, ps, x);
        SentSnoc(k + 1, if Fits(k, ps[0]) then n + 1 else n, ps[1..], x);
        if Fits(k, ps[0]) && Fits(k + |ps|, x) {
          var last := Drawn(k + |ps|, n + |Accepted(k, ps)|, x);
          Assoc(Drawn(k, n, ps[0]), Sent(k + 1, n + 1, ps[1..]), last);
        }
      }
    }

    lemma SentFirst(k: nat, n: nat, ps: seq<bytes>, x: bytes)
      requires ps != []
      ensures Sent(k, n, ps + [x]) ==
              if Fits(k, ps[0]) then Drawn(k, n, ps[0]) + Sent(k + 1, n + 1, ps[1..] + [x])
              else Sent(k + 1, n, ps[1..] + [x])
    {
      assert (ps + [x])[0] == ps[0] && (ps + [x])[1..] == ps[1..] + [x];
    }

    /** If every packet fits, nothing is dropped and the packets go out as the records they should be. */
    lemma {:induction false} AllAccepted(n: nat, ps: seq<bytes>)
      requires AllFit(n, ps)
      ensures Accepted(n, ps) == ps && Sent(n, n, ps) == Wire(n, ps)
      decreases |ps|
    {
      if ps != [] {
        FitTail(n, ps);
        assert Fits(n + 0, ps[0]);
        AllAccepted(n + 1, ps[1..]);
        assert [ps[0]] + ps[1..] == ps;
      }
    }

    /** Otherwise something is missing. */
    lemma {:induction false} SomeDropped(n: nat, ps: seq<bytes>)
      requires !AllFit(n, ps)
      ensures |Accepted(n, ps)| < |ps|
      decreases |ps|
    {
      if Fits(n, ps[0]) {
        if AllFit(n + 1, ps[1..]) {
          FitCons(n, ps);
        }
        SomeDropped(n + 1, ps[1..]);
      }
    }

    lemma FitCons(n: nat, ps: seq<bytes>)
      requires ps != [] && Fits(n, ps[0]) && AllFit(n + 1, ps[1..])
      ensures AllFit(n, ps)
    {
      forall i | 0 <= i < |ps| ensures Fits(n + i, ps[i]) {
        if i > 0 {
          assert Fits(n + 1 + (i - 1), ps[1..][i - 1]);
        }
      }
    }

    lemma {:induction false} AcceptedNonempty(n: nat, ps: seq<bytes>)
      requires forall i :: 0 <= i < |ps| ==> ps[i] != []
      ensures var rs := Accepted(n, ps); forall i :: 0 <= i < |rs| ==> rs[i] != []
      ensures |Flatten(Accepted(n, ps))| <= |Flatten(ps)|
      ensures |Flatten(Accepted(n, ps))| == |Flatten(ps)| <==> |Accepted(n, ps)| == |ps|
      decreases |ps|
    {
      if ps != [] {
        AcceptedNonempty(n + 1, ps[1..]);
        var more := Accepted(n + 1, ps[1..]);
        assert ([ps[0]] + more)[1..] == more;
      }
    }

    lemma SmallFit(n: nat, ps: seq<bytes>)
      requires Lawful() && forall i :: 0 <= i < |ps| ==> |ps[i]| <= PayloadSize()
      ensures AllFit(n, ps)
    {
      forall i | 0 <= i < |ps| ensures Fits(n + i, ps[i]) {
        assert pad(n + i) <= maxPad;
      }
    }

    function Wire(n: nat, ps: seq<bytes>): bytes
      requires AllFit(n, ps)
      decreases |ps|
    {
      if ps == [] then [] else Record(n, ps[0]) + (FitTail(n, ps); Wire(n + 1, ps[1..]))
    }

    lemma FitTail(n: nat, ps: seq<bytes>)
      requires AllFit(n, ps) && ps != []
      ensures AllFit(n + 1, ps[1..])
    {
      forall i | 0 <= i < |ps| - 1 ensures Fits(n + 1 + i, ps[1..][i]) {
        assert Fits(n + (i + 1), ps[i + 1]);
      }
    }

    lemma FitSnoc(n: nat, ps: seq<bytes>, x: bytes)
      requires AllFit(n, ps) && Fits(n + |ps|, x)
      ensures AllFit(n, ps + [x])
    {
      forall i | 0 <= i < |ps + [x]| ensures Fits(n + i, (ps + [x])[i]) {
        assert i < |ps| ==> (ps + [x])[i] == ps[i];
      }
    }

    lemma FitAppend(n: nat, ps: seq<bytes>, qs: seq<bytes>)
      requires AllFit(n, ps) && AllFit(n + |ps|, qs)
      ensures AllFit(n, ps + qs)
    {
      forall i | 0 <= i < |ps + qs| ensures Fits(n + i, (ps + qs)[i]) {
        if i < |ps| {
          assert (ps + qs)[i] == ps[i];
        } else {
          assert (ps + qs)[i] == qs[i - |ps|] && Fits(n + |ps| + (i - |ps|), qs[i - |ps|]);
        }
      }
    }

    lemma {:induction false} WireAppend(n: nat, ps: seq<bytes>, qs: seq<bytes>)
      requires AllFit(n, ps) && AllFit(n + |ps|, qs) && AllFit(n, ps + qs)
      ensures Wire(n, ps + qs) == Wire(n, ps) + Wire(n + |ps|, qs)
      decreases |ps|
    {
      if ps == [] {
        AppendNone(n, ps, qs);
      } else {
        FitTail(n, ps);
        FitTail(n, ps + qs);
        assert (ps + qs)[1..] == ps[1..] + qs;
        WireAppend(n + 1, ps[1..], qs);
        AppendStep(n, ps, qs, Wire(n + 1, ps[1..]), Wire(n + 1 + |ps[1..]|, qs));
      }
    }

    lemma AppendNone(n: nat, ps: seq<bytes>, qs: seq<bytes>)
      requires AllFit(n, ps) && AllFit(n + |ps|, qs) && AllFit(n, ps + qs) && |ps| == 0
      ensures Wire(n, ps + qs) == Wire(n, ps) + Wire(n + |ps|, qs)
    {
      var w, none := Wire(n + |ps|, qs), Wire(n, ps);
      assert ps + qs == qs && |none| == 0;
      assert none + w == w;
    }

    lemma AppendStep(n: nat, ps: seq<bytes>, qs: seq<bytes>, b: bytes, c: bytes)
      requires ps != [] && AllFit(n, ps) && AllFit(n + |ps|, qs) && AllFit(n, ps + qs)
      requires AllFit(n + 1, ps[1..]) && AllFit(n + 1, ps[1..] + qs)
      requires b == Wire(n + 1, ps[1..]) && c == Wire(n + |ps|, qs) && Wire(n + 1, ps[1..] + qs) == b + c
      ensures Wire(n, ps + qs) == Wire(n, ps) + c
    {
      WireFirst(n, ps, qs);
      Assoc(Record(n, ps[0]), b, c);
    }

    lemma WireFirst(n: nat, ps: seq<bytes>, qs: seq<bytes>)
      requires ps != [] && AllFit(n, ps) && AllFit(n, ps + qs)
      ensures AllFit(n + 1, ps[1..] + qs) && Wire(n, ps + qs) == Record(n, ps[0]) + Wire(n + 1, ps[1..] + qs)
    {
      var all := ps + qs;
      FitTail(n, all);
      assert all[0] == ps[0] && all[1..] == ps[1..] + qs;
    }

    lemma {:induction false} WireSnoc(n: nat, ps: seq<bytes>, x: bytes)
      requires AllFit(n, ps) && Fits(n + |ps|, x) && AllFit(n, ps + [x])
      ensures Wire(n, ps + [x]) == Wire(n, ps) + Record(n + |ps|, x)
      decreases |ps|
    {
      var all := ps + [x];
      FitTail(n, all);
      if ps == [] {
        assert all[0] == x && all[1..] == [];
        assert Record(n, x) + [] == Record(n, x) == [] + Record(n, x);
      } else {
        FitTail(n, ps);
        assert all[0] == ps[0] && all[1..] == ps[1..] + [x];
        WireSnoc(n + 1, ps[1..], x);
        Assoc(Record(n, ps[0]), Wire(n + 1, ps[1..]), Record(n + |ps|, x));
      }
    }
  }

  // ---------------------------------------------------------------------------------------------
  // Writing
  // ---------------------------------------------------------------------------------------------

  class AuthenticationWriter {
    const suite: Suite
    const packet: bool
    /** How often the padding generator, and how often the cipher and size codec, have been used. */
    var pads: nat
    var seals: nat

    constructor (suite: Suite, packet: bool)
      ensures this.suite == suite && this.packet == packet && pads == 0 && seals == 0
    {
      this.suite, this.packet := suite, packet;
      pads, seals := 0, 0;
    }

    /** Writer and generator in step, as long as nothing was ever refused. */
    predicate InStep()
      reads this
    {
      pads == seals
    }

    /** One record; an oversized payload is refused after its padding length has been drawn. */
    method Seal(b: bytes) returns (record: Option<bytes>)
      requires suite.Lawful()
      modifies this
      ensures pads == old(pads) + 1 && seals == old(seals) + if record.Some? then 1 else 0
      ensures record.Some? <==> suite.Fits(old(pads), b)
      ensures record.Some? ==> record == Some(suite.Drawn(old(pads), old(seals), b))
      ensures old(InStep()) && record.Some? ==> record == Some(suite.Record(old(seals), b))
    {
      var encryptedSize := |b| + suite.overhead;
      var paddingSize := suite.pad(pads);
      ghost var n := pads;
      pads := pads + 1;
      if suite.sizeBytes + encryptedSize + paddingSize > BUF_SIZE {
        return None;
      }
      var eb := suite.putSize(seals, encryptedSize + paddingSize);
      Assoc(eb, suite.seal(seals, b), suite.filler(n));
      eb := eb + suite.seal(seals, b);
      eb := eb + suite.filler(pads - 1);
      seals := seals + 1;
      record := Some(eb);
    }

    /** Stream mode: nonempty content becomes nonempty records, none of which can be refused. */
    method WriteStream(mb: MultiBuffer) returns (wire: bytes, ghost ps: seq<bytes>)
      requires suite.Lawful() && InStep() && Regular(mb) && Flatten(mb) != []
      modifies this
      ensures InStep() && seals == old(seals) + |ps|
      ensures suite.AllFit(old(seals), ps) && wire == suite.Wire(old(seals), ps)
      ensures Flatten(ps) == Flatten(mb)
      ensures forall i :: 0 <= i < |ps| ==> ps[i] != []
      ensures |ps| > 0 && AllOf(ps[..|ps| - 1], 8192 - suite.overhead - suite.sizeBytes - suite.maxPad)
    {
      var payloadSize := suite.PayloadSize();
      var left := mb;
      wire, ps := [], [];
      while true
        invariant InStep() && seals == old(seals) + |ps|
        invariant Regular(left) && Flatten(left) != []
        invariant Emits(suite, old(seals), ps, wire) && AllOf(ps, payloadSize)
        invariant Flatten(ps) + Flatten(left) == Flatten(mb)
        decreases |Flatten(left)|
      {
        var rest, raw := SplitBytes(left, payloadSize);
        assert suite.pad(seals) <= suite.maxPad;
        var eb := Seal(raw);
        EmitOne(suite, old(seals), ps, wire, raw, Flatten(left), Flatten(rest));
        AllOfSnoc(ps, payloadSize, raw);
        wire := wire + eb.value;
        ps := ps + [raw];
        left := rest;
        FlattenEmpty(left);
        if IsEmpty(left) {
          assert Flatten(ps) + [] == Flatten(ps);
          break;
        }
      }
    }

    /**
     * Packet mode: one record per nonempty packet. A refused packet is dropped, and leaves the
     * padding generator ahead for good: the writer stays in step exactly if every nonempty packet
     * fits a buffer with the padding length drawn for it.
     */
    method WritePacket(mb: MultiBuffer) returns (wire: bytes, ghost ps: seq<bytes>)
      requires suite.Lawful()
      modifies this
      ensures ps == suite.Accepted(old(pads), Packets(mb)) && wire == suite.Sent(old(pads), old(seals), Packets(mb))
      ensures seals == old(seals) + |ps| && pads == old(pads) + |Packets(mb)|
      ensures old(InStep()) ==> (InStep() <==> suite.AllFit(old(pads), Packets(mb)))
      ensures old(InStep()) ==> (InStep() <==> Flatten(ps) == Flatten(mb))
      ensures old(InStep()) && InStep() ==> suite.AllFit(old(seals), ps) && wire == suite.Wire(old(seals), ps)
      ensures forall i :: 0 <= i < |ps| ==> ps[i] != []
    {
      wire, ps := SealPackets(mb);
      PacketsFlatten(mb);
      StaysInStep(suite, old(pads), Packets(mb));
    }

    method SealPackets(mb: MultiBuffer) returns (wire: bytes, ghost ps: seq<bytes>)
      requires suite.Lawful()
      modifies this
      ensures ps == suite.Accepted(old(pads), Packets(mb)) && wire == suite.Sent(old(pads), old(seals), Packets(mb))
      ensures seals == old(seals) + |ps| && pads == old(pads) + |Packets(mb)|
    {
      wire, ps := [], [];
      ghost var qs: seq<bytes> := [];
      for i := 0 to |mb|
        invariant seals == old(seals) + |ps| && pads == old(pads) + |qs|
        invariant Packets(mb[..i]) == qs && SentSoFar(suite, old(pads), old(seals), qs, wire, ps)
      {
        PacketsTake(mb, i);
        if mb[i] != [] {
          wire, ps := SealPacket(mb[i], old(pads), old(seals), qs, wire, ps);
          qs := qs + [mb[i]];
        }
      }
      assert mb[..|mb|] == mb;
    }

    /** One more packet, behind qs. */
    method SealPacket(x: bytes, ghost k: nat, ghost n: nat, ghost qs: seq<bytes>, wire: bytes, ghost ps: seq<bytes>)
      returns (wire1: bytes, ghost ps1: seq<bytes>)
      requires suite.Lawful() && pads == k + |qs| && seals == n + |ps| && SentSoFar(suite, k, n, qs, wire, ps)
      modifies this
      ensures pads == old(pads) + 1 && seals == n + |ps1| && SentSoFar(suite, k, n, qs + [x], wire1, ps1)
    {
      SendOne(suite, k, n, qs, wire, ps, x);
      var eb := Seal(x);
      wire1, ps1 := wire, ps;
      if eb.Some? {
        wire1, ps1 := wire + eb.value, ps + [x];
      }
    }

    /** An empty write is one empty record, the end of the stream. */
    method WriteMultiBuffer(mb: MultiBuffer) returns (wire: bytes, ghost ps: seq<bytes>)
      requires suite.Lawful() && InStep() && Regular(mb)
      modifies this
      ensures seals == old(seals) + |ps|
      ensures InStep() <==> Flatten(ps) == Flatten(mb)
      ensures InStep() ==> suite.AllFit(old(seals), ps) && wire == suite.Wire(old(seals), ps)
      ensures InStep() <==> !packet || suite.AllFit(old(pads), Packets(mb))
      ensures !packet || (forall i :: 0 <= i < |mb| ==> |mb[i]| <= suite.PayloadSize()) ==> InStep()
      ensures if Flatten(mb) == [] then ps == [[]] else forall i :: 0 <= i < |ps| ==> ps[i] != []
      ensures packet && Flatten(mb) != [] ==> ps == suite.Accepted(old(pads), Packets(mb))
    {
      FlattenEmpty(mb);
      if IsEmpty(mb) {
        ghost var none: seq<bytes> := [];
        assert suite.pad(seals) <= suite.maxPad;
        SealedOne(suite, seals, none, []);
        PacketsFlatten(mb);
        FlattenEmpty(Packets(mb));
        var eb := Seal([]);
        assert none + [[]] == [[]];
        assert [] + eb.value == eb.value;
        return eb.value, [[]];
      }
      if packet {
        PacketsFlatten(mb);
        if forall i :: 0 <= i < |mb| ==> |mb[i]| <= suite.PayloadSize() {
          suite.SmallFit(pads, Packets(mb));
        }
        wire, ps := WritePacket(mb);
      } else {
        wire, ps := WriteStream(mb);
      }
    }
  }

  predicate AllOf(ps: seq<bytes>, size: int) {
    forall i :: 0 <= i < |ps| ==> |ps[i]| == size
  }

  lemma AllOfSnoc(ps: seq<bytes>, size: int, x: bytes)
    requires AllOf(ps, size)
    ensures |x| == size ==> AllOf(ps + [x], size)
    ensures (ps + [x])[..|ps|] == ps
  {
  }

  /** Of the packets qs, those in ps have been sent, as wire. */
  ghost predicate SentSoFar(suite: Suite, k: nat, n: nat, qs: seq<bytes>, wire: bytes, ps: seq<bytes>) {
    ps == suite.Accepted(k, qs) && wire == suite.Sent(k, n, qs)
  }

  lemma SendOne(suite: Suite, k: nat, n: nat, qs: seq<bytes>, wire: bytes, ps: seq<bytes>, x: bytes)
    requires SentSoFar(suite, k, n, qs, wire, ps)
    ensures if suite.Fits(k + |qs|, x)
            then SentSoFar(suite, k, n, qs + [x], wire + suite.Drawn(k + |qs|, n + |ps|, x), ps + [x])
            else SentSoFar(suite, k, n, qs + [x], wire, ps)
  {
    suite.AcceptedSnoc(k, qs, x);
    suite.SentSnoc(k, n, qs, x);
  }

  lemma StaysInStep(suite: Suite, n: nat, ps: seq<bytes>)
    requires forall i :: 0 <= i < |ps| ==> ps[i] != []
    ensures var rs := suite.Accepted(n, ps);
      && (forall i :: 0 <= i < |rs| ==> rs[i] != [])
      && (suite.AllFit(n, ps) <==> |rs| == |ps|)
      && (suite.AllFit(n, ps) <==> Flatten(rs) == Flatten(ps))
      && (suite.AllFit(n, ps) ==> rs == ps && suite.Sent(n, n, ps) == suite.Wire(n, ps))
  {
    suite.AcceptedNonempty(n, ps);
    if suite.AllFit(n, ps) {
      suite.AllAccepted(n, ps);
    } else {
      suite.SomeDropped(n, ps);
    }
  }

  /** The nonempty packets, in order. */
  function Packets(mb: MultiBuffer): seq<bytes> {
    if mb == [] then [] else if mb[0] == [] then Packets(mb[1..]) else [mb[0]] + Packets(mb[1..])
  }

  lemma {:induction false} PacketsTake(mb: MultiBuffer, i: nat)
    requires i < |mb|
    ensures Packets(mb[..i + 1]) == if mb[i] == [] then Packets(mb[..i]) else Packets(mb[..i]) + [mb[i]]
  {
    if i == 0 {
      assert mb[..1][1..] == [] && mb[..0] == [];
    } else {
      PacketsTake(mb[1..], i - 1);
      assert mb[..i + 1][1..] == mb[1..][..i] && mb[..i][1..] == mb[1..][..i - 1];
    }
  }

  lemma {:induction false} PacketsFlatten(mb: MultiBuffer)
    ensures Flatten(Packets(mb)) == Flatten(mb)
    ensures forall i :: 0 <= i < |Packets(mb)| ==> Packets(mb)[i] != [] && Packets(mb)[i] in mb
  {
    if mb != [] {
      PacketsFlatten(mb[1..]);
      assert ([mb[0]] + Packets(mb[1..]))[1..] == Packets(mb[1..]);
    }
  }

  /** wire holds the nonempty records ps, numbered from n. */
  ghost predicate Emits(suite: Suite, n: nat, ps: seq<bytes>, wire: bytes) {
    && suite.AllFit(n, ps) && wire == suite.Wire(n, ps)
    && forall i :: 0 <= i < |ps| ==> ps[i] != []
  }

  lemma EmitOne(suite: Suite, n: nat, ps: seq<bytes>, wire: bytes, raw: bytes, before: bytes, rest: bytes)
    requires suite.Lawful() && Emits(suite, n, ps, wire) && suite.Fits(n + |ps|, raw) && raw != []
    requires before == raw + rest
    ensures Emits(suite, n, ps + [raw], wire + suite.Record(n + |ps|, raw))
    ensures Flatten(ps) + before == Flatten(ps + [raw]) + rest
  {
    SealedOne(suite, n, ps, raw);
    FlattenSnoc(ps, raw);
    Assoc(Flatten(ps), raw, rest);
  }

  lemma SealedOne(suite: Suite, n: nat, ps: seq<bytes>, raw: bytes)
    requires suite.Lawful() && suite.AllFit(n, ps) && suite.Fits(n + |ps|, raw)
    ensures suite.AllFit(n, ps + [raw])
    ensures suite.Wire(n, ps + [raw]) == suite.Wire(n, ps) + suite.Record(n + |ps|, raw)
  {
    suite.FitSnoc(n, ps, raw);
    suite.WireSnoc(n, ps, raw);
  }

  // ---------------------------------------------------------------------------------------------
  // Reading
  // ---------------------------------------------------------------------------------------------

  /** What a reader finds next: a payload and what is behind its record, the end, or neither. */
  datatype Outcome = Delivered(payload: bytes, rest: bytes) | Ended | Broken

  /**
   * A record of n bytes at the front of s, padding included. If the padding is longer than the record,
   * the end of the sealed part is counted from the end of the record once more, as BytesTo does.
   */
  function Opened(suite: Suite, opens: nat, n: nat, padding: nat, s: bytes): Outcome {
    if n == suite.overhead + padding then Ended
    else if |s| < n then Broken
    else match suite.open(opens, s[..SealedLen(n, padding)])
      case None => Broken
      case Some(p) => Delivered(p, s[n..])
  }

  function SealedLen(n: nat, padding: nat): (k: nat)
    ensures k <= n
  {
    if n >= padding then n - padding else Max(0, n - padding + n)
  }

  function Ahead(suite: Suite, sizes: nat, opens: nat, s: bytes): Outcome {
    if |s| < suite.sizeBytes then Broken
    else match suite.getSize(sizes, s[..suite.sizeBytes])
      case None => Broken
      case Some(n) => Opened(suite, opens, n, suite.pad(sizes), s[suite.sizeBytes..])
  }

  /** The size at the front of s, and the padding length drawn for it. */
  predicate Sized(suite: Suite, sizes: nat, s: bytes, n: nat, padding: nat) {
    && suite.sizeBytes <= |s| && padding == suite.pad(sizes)
    && suite.getSize(sizes, s[..suite.sizeBytes]).Some? && n == suite.getSize(sizes, s[..suite.sizeBytes]).value
  }

  /** Where a reader stands: its fields, and what is still to be read. */
  datatype Point = Point(
    sizes: nat, opens: nat, size: nat, paddingLen: nat, hasSize: bool, done: bool, s: bytes)

  /** What the next read that does not wait finds there. */
  function Next(suite: Suite, p: Point): Outcome {
    if p.done then Ended
    else if p.hasSize then Opened(suite, p.opens, p.size, p.paddingLen, p.s)
    else Ahead(suite, p.sizes, p.opens, p.s)
  }

  /**
   * One attempt leads from p to q. It delivers what is there, and nothing else; if it waits, it has
   * at most decoded the next size, and what is there is still the same.
   */
  ghost predicate Attempted(suite: Suite, p: Point, q: Point, payload: bytes, r: Attempt) {
    match r
    case Wait =>
      && Next(suite, q) == Next(suite, p)
      && (|| q == p
          || (&& !p.done && !p.hasSize && Sized(suite, p.sizes, p.s, q.size, q.paddingLen)
              && q.size != suite.overhead + q.paddingLen
              && q == Point(p.sizes + 1, p.opens, q.size, q.paddingLen, true, false, p.s[suite.sizeBytes..])))
    case End => Next(suite, p) == Ended && q.done
    case Failed => !p.done && Next(suite, p) == Broken
    case Got =>
      && Next(suite, p) == Delivered(payload, q.s)
      && !q.done && !q.hasSize && q.opens == p.opens + 1 && q.sizes == p.sizes + if p.hasSize then 0 else 1
  }

  /** The reader is in front of the records ps; the size of the first may be known already. */
  ghost predicate InFrontOf(suite: Suite, p: Point, ps: seq<bytes>, more: bytes) {
    && !p.done && p.sizes == p.opens + (if p.hasSize then 1 else 0)
    && (if p.hasSize then
          && AtPayload(suite, p.opens, ps, more, p.s) && ps[0] != []
          && p.size == suite.Size(p.opens, ps[0]) && p.paddingLen == suite.pad(p.opens)
        else
          AtRecord(suite, p.opens, ps, more, p.s))
  }

  /** There the next read finds the first of them. */
  lemma NextInFront(suite: Suite, p: Point, ps: seq<bytes>, more: bytes)
    requires suite.Lawful() && ps != [] && InFrontOf(suite, p, ps, more)
    ensures suite.AllFit(p.opens, ps)
    ensures Next(suite, p) == if ps[0] == [] then Ended else Delivered(ps[0], Behind(suite, p.opens, ps, more))
    ensures !p.hasSize ==> Sized(suite, p.sizes, p.s, suite.Size(p.opens, ps[0]), suite.pad(p.opens))
    ensures !p.hasSize ==> AtPayload(suite, p.opens, ps, more, p.s[suite.sizeBytes..])
  {
    var x, rest := ps[0], Behind(suite, p.opens, ps, more);
    OpenedSealed(suite, p.opens, x, rest);
    if !p.hasSize {
      SplitRecord(suite, p.opens, ps, more);
      AheadRecord(suite, p.opens, x, rest);
    }
  }

  /** What an attempt in front of the records ps leaves. */
  ghost predicate Took(suite: Suite, q: Point, payload: bytes, r: Attempt, ps: seq<bytes>, more: bytes)
    requires ps != []
  {
    match r
    case Failed => false
    case Got => ps[0] != [] && payload == ps[0] && InFrontOf(suite, q, ps[1..], more)
    case Wait => InFrontOf(suite, q, ps, more)
    case End => ps[0] == [] && q.done
  }

  ghost predicate ReachedAt(suite: Suite, p: Point, ps: seq<bytes>, more: bytes, j: nat, mb: MultiBuffer) {
    && 0 < j < |ps| && Flatten(mb) == Flatten(ps[..j])
    && (if p.done then ps[j] == [] else InFrontOf(suite, p, ps[j..], more))
  }

  ghost predicate GoingAt(suite: Suite, p: Point, ps: seq<bytes>, more: bytes, j: nat, mb: MultiBuffer) {
    !p.done && ReachedAt(suite, p, ps, more, j, mb) && ps[|ps| - 1] == []
  }

  lemma AttemptTook(
    suite: Suite, p: Point, q: Point, payload: bytes, r: Attempt, ps: seq<bytes>, more: bytes)
    requires suite.Lawful() && ps != [] && InFrontOf(suite, p, ps, more) && Attempted(suite, p, q, payload, r)
    ensures Took(suite, q, payload, r, ps, more)
  {
    NextInFront(suite, p, ps, more);
    if r == Got {
      NextRecord(suite, p.opens, ps, more);
      InFrontAgain(suite, q, ps[1..], more);
    } else if r == Wait && q != p {
      SizeKnown(suite, p, q, ps, more);
    }
  }

  lemma InFrontAgain(suite: Suite, q: Point, ps: seq<bytes>, more: bytes)
    requires !q.done && !q.hasSize && q.sizes == q.opens && AtRecord(suite, q.opens, ps, more, q.s)
    ensures InFrontOf(suite, q, ps, more)
  {
  }

  lemma SizeKnown(suite: Suite, p: Point, q: Point, ps: seq<bytes>, more: bytes)
    requires ps != [] && p.sizes == p.opens && AtPayload(suite, p.opens, ps, more, q.s)
    requires Sized(suite, p.sizes, p.s, suite.Size(p.opens, ps[0]), suite.pad(p.opens))
    requires Sized(suite, p.sizes, p.s, q.size, q.paddingLen) && q.size != suite.overhead + q.paddingLen
    requires q.sizes == p.sizes + 1 && q.opens == p.opens && q.hasSize && !q.done
    ensures InFrontOf(suite, q, ps, more)
  {
  }

  lemma OpenedIs(suite: Suite, opens: nat, n: nat, padding: nat, s: bytes, raw: bytes, rest: bytes)
    requires s == raw + rest && |raw| == n && n != suite.overhead + padding
    ensures Opened(suite, opens, n, padding, s) ==
            match suite.open(opens, raw[..SealedLen(n, padding)])
            case None => Broken
            case Some(p) => Delivered(p, rest)
  {
    var k := SealedLen(n, padding);
    assert s[..k] == raw[..k] && s[n..] == rest;
  }

  lemma OpenedSealed(suite: Suite, k: nat, x: bytes, rest: bytes)
    requires suite.Lawful()
    ensures Opened(suite, k, suite.Size(k, x), suite.pad(k), suite.Sealed(k, x) + rest) ==
            if x == [] then Ended else Delivered(x, rest)
  {
    var sealed := suite.Sealed(k, x);
    var s, n := sealed + rest, suite.Size(k, x);
    assert |sealed| == n && s[n..] == rest;
    assert s[..n - suite.pad(k)] == suite.seal(k, x);
    assert suite.open(k, suite.seal(k, x)) == Some(x);
  }

  lemma AheadRecord(suite: Suite, k: nat, x: bytes, rest: bytes)
    requires suite.Lawful() && suite.Fits(k, x)
    ensures var s := suite.putSize(k, suite.Size(k, x)) + (suite.Sealed(k, x) + rest);
      && s[suite.sizeBytes..] == suite.Sealed(k, x) + rest
      && Sized(suite, k, s, suite.Size(k, x), suite.pad(k))
      && Ahead(suite, k, k, s) == Opened(suite, k, suite.Size(k, x), suite.pad(k), suite.Sealed(k, x) + rest)
  {
    var h, body := suite.putSize(k, suite.Size(k, x)), suite.Sealed(k, x) + rest;
    assert |h| == suite.sizeBytes && suite.getSize(k, h) == Some(suite.Size(k, x));
    assert (h + body)[..suite.sizeBytes] == h && (h + body)[suite.sizeBytes..] == body;
  }

  /** A record, byte for byte: its size, the sealed payload, and the padding, in one buffer or not at all. */
  lemma RecordLayout(suite: Suite, n: nat, p: bytes)
    requires suite.Lawful()
    ensures suite.Fits(n, p) <==> suite.sizeBytes + |p| + suite.overhead + suite.pad(n) <= 8192
    ensures suite.Fits(n, p) ==>
      var r, from, to := suite.Record(n, p), suite.sizeBytes, suite.sizeBytes + |p| + suite.overhead;
      && |r| == to + suite.pad(n)
      && r[..from] == suite.putSize(n, |p| + suite.overhead + suite.pad(n))
      && r[from..to] == suite.seal(n, p) && r[to..] == suite.filler(n)
  {
    assert |suite.seal(n, p)| == |p| + suite.overhead && |suite.filler(n)| == suite.pad(n);
  }

  /** How one attempt to read a record ends. */
  datatype Attempt = Got | Wait | End | Failed

  class AuthenticationReader {
    const suite: Suite
    const reader: BufferedReader
    /** How many sizes have been decoded and how many payloads opened. */
    var sizes: nat
    var opens: nat
    var size: nat
    var paddingLen: nat
    var hasSize: bool
    var done: bool

    constructor (suite: Suite, reader: BufferedReader)
      ensures this.suite == suite && this.reader == reader
      ensures sizes == 0 && opens == 0 && !hasSize && !done
    {
      this.suite, this.reader := suite, reader;
      sizes, opens, size, paddingLen := 0, 0, 0, 0;
      hasSize, done := false, false;
    }

    /** The stream holds the records ps and then more; the size of the first may be known already. */
    ghost predicate Synced(ps: seq<bytes>, more: bytes)
      reads this, reader
    {
      InFrontOf(suite, Here(), ps, more)
    }

    function Here(): Point
      reads this, reader
    {
      Point(sizes, opens, size, paddingLen, hasSize, done, reader.Remaining())
    }

    /** What the cache holds is less than the next record, or than its size. */
    predicate Scarce()
      reads this, reader
    {
      reader.BufferedBytes() < suite.sizeBytes || (hasSize && reader.BufferedBytes() < size)
    }

    /** A read of j records stops: there were sixteen, it is at the end, or the next is not here yet. */
    predicate StopsAt(j: nat)
      reads this, reader
    {
      j == 16 || (j < 16 && (done || Scarce()))
    }

    /** The size of the next record, remembered from an earlier attempt or decoded now. */
    method ReadSize() returns (n: nat, padding: nat, ok: bool)
      requires reader.Valid() && suite.Lawful() && !done
      modifies this, reader
      ensures reader.Valid() && !hasSize && opens == old(opens) && !done
      ensures old(hasSize) || suite.sizeBytes <= old(reader.BufferedBytes()) ==> reader.source == old(reader.source)
      ensures ok || Next(suite, old(Here())) == Broken
      ensures ok ==> Next(suite, old(Here())) == Opened(suite, opens, n, padding, reader.Remaining())
      ensures ok && old(hasSize) ==>
                sizes == old(sizes) && n == old(size) && padding == old(paddingLen)
                && reader.Remaining() == old(reader.Remaining())
      ensures ok && !old(hasSize) ==>
                sizes == old(sizes) + 1 && Sized(suite, old(sizes), old(reader.Remaining()), n, padding)
                && reader.Remaining() == old(reader.Remaining())[suite.sizeBytes..]
    {
      if hasSize {
        hasSize := false;
        return size, paddingLen, true;
      }
      ghost var s := reader.Remaining();
      var raw, status := reader.ReadFull(suite.sizeBytes);
      if status != Ok {
        return 0, 0, false;
      }
      assert raw == s[..suite.sizeBytes] && reader.Remaining() == s[suite.sizeBytes..];
      padding := suite.pad(sizes);
      var decoded := suite.getSize(sizes, raw);
      sizes := sizes + 1;
      ok := decoded.Some?;
      n := if ok then decoded.value else 0;
    }

    /** The payload of a record whose size is known and which is not the end. */
    method ReadPayload(n: nat, padding: nat) returns (payload: bytes, ok: bool)
      requires reader.Valid() && n != suite.overhead + padding
      modifies this`opens, reader
      ensures reader.Valid()
      ensures n <= old(reader.BufferedBytes()) ==> reader.source == old(reader.source)
      ensures ok || Opened(suite, old(opens), n, padding, old(reader.Remaining())) == Broken
      ensures ok ==> opens == old(opens) + 1
      ensures !ok ||
              Opened(suite, old(opens), n, padding, old(reader.Remaining())) == Delivered(payload, reader.Remaining())
    {
      ghost var s := reader.Remaining();
      var raw, status := reader.ReadFull(n);
      var end := if n >= padding then n - padding else Max(0, n - padding + n);
      if status != Ok {
        return [], false;
      }
      OpenedIs(suite, opens, n, padding, s, raw, reader.Remaining());
      var plain := suite.open(opens, raw[..end]);
      opens := opens + 1;
      ok := plain.Some?;
      payload := if ok then plain.value else [];
    }

    /**
     * One attempt, on any stream: it delivers a payload exactly if the next record is there whole and
     * opens to it. A soft attempt never asks the reader below for more; if it cannot finish, the size
     * it may have decoded is kept, so no record is lost or read twice.
     */
    method ReadRecord(soft: bool) returns (payload: bytes, n: nat, r: Attempt)
      requires reader.Valid() && suite.Lawful()
      modifies this, reader
      ensures reader.Valid()
      ensures soft ==> reader.source == old(reader.source)
      ensures r == Wait ==> soft && Scarce()
      ensures Attempted(suite, old(Here()), Here(), payload, r)
    {
      payload, n := [], 0;
      if soft && reader.BufferedBytes() < suite.sizeBytes {
        r := Wait;
        return;
      }
      if done {
        r := End;
        return;
      }
      var padding, ok;
      n, padding, ok := ReadSize();
      if !ok {
        r := Failed;
        return;
      }
      if n == suite.overhead + padding {
        done, r := true, End;
        return;
      }
      if soft && n > reader.BufferedBytes() {
        size, paddingLen, hasSize := n, padding, true;
        r := Wait;
        return;
      }
      payload, ok := ReadPayload(n, padding);
      r := if ok then Got else Failed;
    }

    /** The same, said of the records ps. */
    method ReadOneOf(soft: bool, ghost ps: seq<bytes>, ghost more: bytes)
      returns (payload: bytes, n: nat, r: Attempt)
      requires reader.Valid() && suite.Lawful()
      modifies this, reader
      ensures reader.Valid()
      ensures soft ==> reader.source == old(reader.source)
      ensures r == Wait ==> soft && done == old(done) && Scarce()
      ensures (r == End ==> done) && (old(done) ==> (r == End || r == Wait) && done)
      ensures ps == [] || !old(Synced(ps, more)) || Took(suite, Here(), payload, r, ps, more)
    {
      ghost var p := Here();
      payload, n, r := ReadRecord(soft);
      if ps != [] && InFrontOf(suite, p, ps, more) {
        AttemptTook(suite, p, Here(), payload, r, ps, more);
      }
    }

    /** The same, with the payload put behind mb. */
    method ReadInternal(soft: bool, mb: MultiBuffer, ghost ps: seq<bytes>, ghost more: bytes)
      returns (mb1: MultiBuffer, r: Attempt)
      requires reader.Valid() && suite.Lawful()
      modifies this, reader
      ensures reader.Valid()
      ensures soft ==> reader.source == old(reader.source)
      ensures r != Got ==> mb1 == mb
      ensures r == End ==> done
      ensures r == Wait ==> soft && done == old(done) && Scarce()
      ensures old(done) ==> (r == End || r == Wait) && done
      ensures ps != [] && old(Synced(ps, more)) ==>
                match r
                case Failed => false
                case Got => ps[0] != [] && Flatten(mb1) == Flatten(mb) + ps[0] && Synced(ps[1..], more)
                case Wait => Synced(ps, more)
                case End => ps[0] == [] && done
    {
      mb1 := mb;
      var payload, n;
      payload, n, r := ReadOneOf(soft, ps, more);
      if r == Got {
        if n <= BUF_SIZE {
          FlattenSnoc(mb, payload);
          mb1 := mb + [payload];
        } else {
          mb1 := MergeBytes(mb, payload);
        }
      }
    }

    /** Whether records ps[..j] have been delivered as mb, and the reader is in front of the next. */
    ghost predicate Reached(ps: seq<bytes>, more: bytes, j: nat, mb: MultiBuffer)
      reads this, reader
    {
      ReachedAt(suite, Here(), ps, more, j, mb)
    }

    /**
     * One read: a record, and those that are already here, up to fifteen more. It ends exactly in front
     * of a record, or at the empty record, which every later read reports as the end.
     */
    method ReadMultiBuffer(ghost ps: seq<bytes>, ghost more: bytes)
      returns (mb: MultiBuffer, status: Status, ghost j: nat)
      requires reader.Valid() && suite.Lawful()
      modifies this, reader
      ensures reader.Valid()
      ensures old(done) || old(AtEnd(ps, more)) ==> status == Eof && done
      ensures !old(Starts(ps, more)) || status == Ok
      ensures !old(Starts(ps, more)) || Reached(ps, more, j, mb)
      ensures status != Ok || StopsAt(j)
    {
      j := 1;
      var r;
      mb, r := ReadFirst(ps, more);
      if r == End {
        return [], Eof, j;
      }
      if r == Failed {
        return [], Cut, j;
      }
      var ok;
      mb, ok, j := ReadMore(mb, ps, more);
      status := if ok then Ok else Cut;
    }

    /** The empty record is next. */
    ghost predicate AtEnd(ps: seq<bytes>, more: bytes)
      reads this, reader
    {
      ps != [] && ps[0] == [] && Synced(ps, more)
    }

    /** Another record is next, and the empty one comes later. */
    ghost predicate Starts(ps: seq<bytes>, more: bytes)
      reads this, reader
    {
      ps != [] && ps[0] != [] && ps[|ps| - 1] == [] && Synced(ps, more)
    }

    /** The first attempt of a read, which waits for its record. */
    method ReadFirst(ghost ps: seq<bytes>, ghost more: bytes) returns (mb: MultiBuffer, r: Attempt)
      requires reader.Valid() && suite.Lawful()
      modifies this, reader
      ensures reader.Valid() && r != Wait && (r == End ==> done)
      ensures old(done) || old(AtEnd(ps, more)) ==> r == End
      ensures !old(Starts(ps, more)) || r == Got
      ensures !old(Starts(ps, more)) || Going(ps, more, 1, mb)
    {
      ghost var starts := Starts(ps, more);
      mb, r := ReadInternal(false, [], ps, more);
      if starts {
        FirstReached(ps, mb);
      }
    }

    /** The soft attempts of one read. */
    method ReadMore(first: MultiBuffer, ghost ps: seq<bytes>, ghost more: bytes)
      returns (mb: MultiBuffer, ok: bool, ghost j: nat)
      requires reader.Valid() && suite.Lawful()
      modifies this, reader
      ensures reader.Valid() && reader.source == old(reader.source)
      ensures !old(Going(ps, more, 1, first)) || ok
      ensures !old(Going(ps, more, 1, first)) || Reached(ps, more, j, mb)
      ensures !ok || StopsAt(j)
    {
      ghost var inStep := Going(ps, more, 1, first);
      mb, ok, j := first, true, 1;
      for i := 1 to 16
        invariant reader.Valid() && reader.source == old(reader.source) && ok
        invariant !inStep || Going(ps, more, j, mb)
        invariant j == i
      {
        var r;
        mb, r := ReadNext(mb, ps, more, j);
        if r == Wait || r == End {
          return;
        }
        if r == Failed {
          return [], false, j;
        }
        j := j + 1;
      }
    }

    /** The same as Reached, with records ahead that end in the empty one. */
    ghost predicate Going(ps: seq<bytes>, more: bytes, j: nat, mb: MultiBuffer)
      reads this, reader
    {
      GoingAt(suite, Here(), ps, more, j, mb)
    }

    /** One soft attempt. */
    method ReadNext(mb: MultiBuffer, ghost ps: seq<bytes>, ghost more: bytes, ghost j: nat)
      returns (mb1: MultiBuffer, r: Attempt)
      requires reader.Valid() && suite.Lawful()
      modifies this, reader
      ensures reader.Valid() && reader.source == old(reader.source)
      ensures (r == Wait ==> Scarce()) && (r == End ==> done)
      ensures !old(Going(ps, more, j, mb)) || r != Failed
      ensures !old(Going(ps, more, j, mb)) || r != Got || Going(ps, more, j + 1, mb1)
      ensures !old(Going(ps, more, j, mb)) || r == Got || Reached(ps, more, j, mb1)
    {
      ghost var going := Going(ps, more, j, mb);
      ghost var left := if j < |ps| then ps[j..] else [];
      mb1, r := ReadInternal(true, mb, left, more);
      if going && r == Got {
        NextReached(ps, j, mb, mb1);
      }
    }
  }

  lemma FirstReached(ps: seq<bytes>, mb: MultiBuffer)
    requires |ps| > 0 && ps[0] != [] && ps[|ps| - 1] == [] && Flatten(mb) == Flatten<byte>([]) + ps[0]
    ensures 1 < |ps| && Flatten(mb) == Flatten(ps[..1])
  {
    assert ps[..1] == [ps[0]] && ps[..1][1..] == [];
  }

  lemma NextReached(ps: seq<bytes>, j: nat, before: MultiBuffer, mb: MultiBuffer)
    requires 0 < j < |ps| && ps[|ps| - 1] == [] && ps[j..][0] != []
    requires Flatten(before) == Flatten(ps[..j]) && Flatten(mb) == Flatten(before) + ps[j..][0]
    ensures j + 1 < |ps| && ps[j] != [] && Flatten(mb) == Flatten(ps[..j + 1]) && ps[j..][1..] == ps[j + 1..]
  {
    FlattenTake(ps, j);
  }

  /** A record has been read: the rest is the stream from the next record on. */
  lemma NextRecord(suite: Suite, k: nat, ps: seq<bytes>, more: bytes)
    requires suite.AllFit(k, ps) && ps != []
    ensures AtRecord(suite, k + 1, ps[1..], more, Behind(suite, k, ps, more))
  {
    suite.FitTail(k, ps);
  }

  /** What follows the first of the records ps, which is record k. */
  ghost function Behind(suite: Suite, k: nat, ps: seq<bytes>, more: bytes): bytes
    requires suite.AllFit(k, ps) && ps != []
  {
    suite.FitTail(k, ps);
    suite.Wire(k + 1, ps[1..]) + more
  }

  /** s starts with the records ps, numbered from k. */
  ghost predicate AtRecord(suite: Suite, k: nat, ps: seq<bytes>, more: bytes, s: bytes) {
    suite.AllFit(k, ps) && s == suite.Wire(k, ps) + more
  }

  /** s starts behind the size of the first of these records. */
  ghost predicate AtPayload(suite: Suite, k: nat, ps: seq<bytes>, more: bytes, s: bytes) {
    ps != [] && suite.AllFit(k, ps) && s == suite.Sealed(k, ps[0]) + Behind(suite, k, ps, more)
  }

  lemma SplitRecord(suite: Suite, k: nat, ps: seq<bytes>, more: bytes)
    requires suite.Lawful() && ps != [] && suite.AllFit(k, ps)
    ensures suite.AllFit(k + 1, ps[1..])
    ensures suite.Wire(k, ps) + more ==
            suite.putSize(k, suite.Size(k, ps[0])) + (suite.Sealed(k, ps[0]) + Behind(suite, k, ps, more))
  {
    suite.FitTail(k, ps);
    var h, b, rest := suite.putSize(k, suite.Size(k, ps[0])), suite.Sealed(k, ps[0]), suite.Wire(k + 1, ps[1..]);
    Assoc(h + b, rest, more);
    Assoc(h, b, rest + more);
  }

  // ---------------------------------------------------------------------------------------------
  // Whole streams
  // ---------------------------------------------------------------------------------------------

  /** Nonempty records and then the empty one. */
  ghost predicate Closed(ps: seq<bytes>) {
    ps != [] && (if |ps| == 1 then ps[0] == [] else ps[0] != [] && Closed(ps[1..]))
  }

  lemma {:induction false} ClosedTail(ps: seq<bytes>, j: nat)
    requires Closed(ps) && j < |ps|
    ensures Closed(ps[j..])
  {
    if j > 0 {
      assert ps[1..][j - 1..] == ps[j..];
      ClosedTail(ps[1..], j - 1);
    } else {
      assert ps[0..] == ps;
    }
  }

  lemma {:induction false} ClosedEnds(ps: seq<bytes>)
    requires Closed(ps)
    ensures ps[|ps| - 1] == [] && (ps[0] == [] <==> |ps| == 1)
  {
    if |ps| > 1 {
      ClosedEnds(ps[1..]);
    }
  }

  lemma SplitAt(ps: seq<bytes>, j: nat, i: nat)
    requires j < |ps| && i < |ps| - j
    ensures Flatten(ps[..j + i]) == Flatten(ps[..j]) + Flatten(ps[j..][..i])
    ensures ps[j..][i..] == ps[j + i..] && ps[j..][i] == ps[j + i]
  {
    assert ps[..j + i] == ps[..j] + ps[j..][..i];
    FlattenAppend(ps[..j], ps[j..][..i]);
  }

  /** The records ps[..j] have been delivered, and r is in front of the next or at the end. */
  ghost predicate Place(r: AuthenticationReader, ps: seq<bytes>, more: bytes, j: nat)
    reads r, r.reader
  {
    j < |ps| && if r.done then j == |ps| - 1 else r.Synced(ps[j..], more)
  }

  lemma Onward(r: AuthenticationReader, ps: seq<bytes>, more: bytes, j: nat, i: nat, mb: MultiBuffer, k: nat)
    requires Closed(ps) && j < |ps| && r.Reached(ps[j..], more, i, mb) && k == j + i
    ensures i > 0 && Place(r, ps, more, k)
    ensures Flatten(ps[..k]) == Flatten(ps[..j]) + Flatten(mb)
  {
    SplitAt(ps, j, i);
    LastIfEmpty(ps, k);
    assert ps[j..][i..] == ps[k..];
  }

  lemma LastIfEmpty(ps: seq<bytes>, k: nat)
    requires Closed(ps) && k < |ps|
    ensures ps[k] == [] ==> k == |ps| - 1
  {
    ClosedTail(ps, k);
    ClosedEnds(ps[k..]);
  }

  lemma FirstAndLast(ps: seq<bytes>, j: nat)
    requires Closed(ps) && j < |ps|
    ensures var left := ps[j..]; left != [] && left[|left| - 1] == [] && (left[0] == [] <==> j == |ps| - 1)
  {
    ClosedTail(ps, j);
    ClosedEnds(ps[j..]);
  }

  /** One read with the records `left` ahead. */
  method ReadAhead(r: AuthenticationReader, ghost left: seq<bytes>, ghost more: bytes)
    returns (mb: MultiBuffer, end: bool, ghost i: nat)
    requires r.reader.Valid() && r.suite.Lawful()
    requires left != [] && left[|left| - 1] == [] && (left[0] == [] <==> |left| == 1)
    requires if r.done then |left| == 1 else r.Synced(left, more)
    modifies r, r.reader
    ensures r.reader.Valid()
    ensures end <==> |left| == 1
    ensures end ==> r.done
    ensures !end ==> r.Reached(left, more, i, mb)
  {
    var status;
    mb, status, i := r.ReadMultiBuffer(left, more);
    end := status == Eof;
  }

  method ReadSome(r: AuthenticationReader, ghost ps: seq<bytes>, ghost more: bytes, ghost j: nat)
    returns (piece: bytes, end: bool, ghost j1: nat)
    requires r.reader.Valid() && r.suite.Lawful() && Closed(ps) && Place(r, ps, more, j)
    modifies r, r.reader
    ensures r.reader.Valid()
    ensures end ==> j == |ps| - 1 && r.done
    ensures end || Place(r, ps, more, j1)
    ensures !end ==> j < j1 < |ps| && Flatten(ps[..j1]) == Flatten(ps[..j]) + piece
  {
    FirstAndLast(ps, j);
    var mb;
    ghost var i;
    mb, end, i := ReadAhead(r, ps[j..], more);
    piece := Flatten(mb);
    j1 := j;
    if !end {
      j1 := j + i;
      Onward(r, ps, more, j, i, mb, j1);
    }
  }

  /**
   * Reading to the end, however the wire bytes are cut: everything that was written up to the empty
   * write comes back, in order, and the end is reported exactly there.
   */
  method ReadToEnd(r: AuthenticationReader, ghost ps: seq<bytes>, ghost more: bytes) returns (data: bytes)
    requires r.reader.Valid() && r.suite.Lawful() && Closed(ps) && r.Synced(ps, more)
    modifies r, r.reader
    ensures data == Flatten(ps) && r.done
  {
    data := [];
    ghost var j := 0;
    assert ps[0..] == ps;
    while true
      invariant r.reader.Valid() && Place(r, ps, more, j) && data == Flatten(ps[..j])
      decreases |ps| - j
    {
      var piece, end;
      ghost var j1;
      piece, end, j1 := ReadSome(r, ps, more, j);
      if end {
        ClosedEnds(ps);
        FlattenTake(ps, j);
        assert ps[..|ps|] == ps;
        assert data + [] == data;
        return;
      }
      data, j := data + piece, j1;
    }
  }

  // ---------------------------------------------------------------------------------------------
  // End to end
  // ---------------------------------------------------------------------------------------------

  lemma EmitsAppend(suite: Suite, n: nat, ps: seq<bytes>, wire: bytes, qs: seq<bytes>, more: bytes)
    requires Emits(suite, n, ps, wire) && Emits(suite, n + |ps|, qs, more)
    ensures Emits(suite, n, ps + qs, wire + more) && Flatten(ps + qs) == Flatten(ps) + Flatten(qs)
  {
    suite.FitAppend(n, ps, qs);
    suite.WireAppend(n, ps, qs);
    FlattenAppend(ps, qs);
    assert forall i :: 0 <= i < |ps + qs| ==> (ps + qs)[i] == if i < |ps| then ps[i] else qs[i - |ps|];
  }

  lemma {:induction false} ClosedByEmpty(ps: seq<bytes>)
    requires forall i :: 0 <= i < |ps| ==> ps[i] != []
    ensures Closed(ps + [[]]) && Flatten(ps + [[]]) == Flatten(ps)
    decreases |ps|
  {
    FlattenSnoc(ps, []);
    assert Flatten(ps) + [] == Flatten(ps);
    if ps != [] {
      assert (ps + [[]])[1..] == ps[1..] + [[]];
      ClosedByEmpty(ps[1..]);
    }
  }

  /** wire holds the records ps, numbered from n: data, and then the empty record. */
  ghost predicate Holds(suite: Suite, n: nat, ps: seq<bytes>, data: bytes, wire: bytes) {
    Closed(ps) && Flatten(ps) == data && suite.AllFit(n, ps) && wire == suite.Wire(n, ps)
  }

  lemma CloseStream(suite: Suite, n: nat, ps: seq<bytes>, wire: bytes, qs: seq<bytes>, end: bytes)
    requires Emits(suite, n, ps, wire) && qs == [[]]
    requires suite.AllFit(n + |ps|, qs) && end == suite.Wire(n + |ps|, qs)
    ensures Holds(suite, n, ps + qs, Flatten(ps), wire + end)
  {
    ClosedByEmpty(ps);
    suite.FitAppend(n, ps, qs);
    suite.WireAppend(n, ps, qs);
  }

  /** The nonempty packets of all writes, in order. */
  function AllPackets(mbs: seq<MultiBuffer>): seq<bytes> {
    if mbs == [] then [] else Packets(mbs[0]) + AllPackets(mbs[1..])
  }

  lemma {:induction false} AllPacketsSplit(mbs: seq<MultiBuffer>, i: nat)
    requires i < |mbs|
    ensures AllPackets(mbs) == AllPackets(mbs[..i]) + (Packets(mbs[i]) + AllPackets(mbs[i + 1..]))
    ensures AllPackets(mbs[..i + 1]) == AllPackets(mbs[..i]) + Packets(mbs[i])
  {
    if i == 0 {
      assert mbs[..1][1..] == [] && mbs[..0] == [];
      assert AllPackets(mbs[..1]) == Packets(mbs[0]) + [] == Packets(mbs[0]);
      assert [] + AllPackets(mbs) == AllPackets(mbs);
    } else {
      var rest := mbs[1..];
      AllPacketsSplit(rest, i - 1);
      assert mbs[..i + 1][1..] == rest[..i] && mbs[..i][1..] == rest[..i - 1] && rest[i..] == mbs[i + 1..];
      Assoc(Packets(mbs[0]), AllPackets(rest[..i - 1]), Packets(mbs[i]));
      Assoc(Packets(mbs[0]), AllPackets(rest[..i - 1]), Packets(mbs[i]) + AllPackets(mbs[i + 1..]));
    }
  }

  lemma FitMiddle(suite: Suite, n: nat, a: seq<bytes>, b: seq<bytes>, c: seq<bytes>)
    requires suite.AllFit(n, a + (b + c))
    ensures suite.AllFit(n + |a|, b)
  {
    forall i | 0 <= i < |b| ensures suite.Fits(n + |a| + i, b[i]) {
      assert (a + (b + c))[|a| + i] == b[i];
    }
  }

  /** Nothing is refused, with the padding lengths that are drawn from the n-th on. */
  predicate Accepting(suite: Suite, packet: bool, n: nat, mbs: seq<MultiBuffer>) {
    packet ==> suite.AllFit(n, AllPackets(mbs))
  }

  /** One nonempty write. */
  method WriteOne(w: AuthenticationWriter, mb: MultiBuffer) returns (wire: bytes, ghost ps: seq<bytes>)
    requires w.suite.Lawful() && w.InStep() && Regular(mb) && Flatten(mb) != []
    requires w.packet ==> w.suite.AllFit(w.pads, Packets(mb))
    modifies w
    ensures w.InStep() && w.seals == old(w.seals) + |ps|
    ensures Emits(w.suite, old(w.seals), ps, wire) && Flatten(ps) == Flatten(mb)
    ensures w.packet ==> ps == Packets(mb)
  {
    if w.packet {
      w.suite.AllAccepted(w.pads, Packets(mb));
    }
    wire, ps := w.WriteMultiBuffer(mb);
  }

  /** The writes in done have gone out as the records ps, numbered from n. */
  ghost predicate Written(
    suite: Suite, packet: bool, n: nat, done: seq<MultiBuffer>, ps: seq<bytes>, wire: bytes)
  {
    Emits(suite, n, ps, wire) && Flatten(ps) == All(done) && (packet ==> ps == AllPackets(done))
  }

  lemma NextFits(suite: Suite, packet: bool, n: nat, mbs: seq<MultiBuffer>, i: nat, ps: seq<bytes>, wire: bytes)
    requires i < |mbs| && Accepting(suite, packet, n, mbs) && Written(suite, packet, n, mbs[..i], ps, wire)
    ensures packet ==> suite.AllFit(n + |ps|, Packets(mbs[i]))
  {
    if packet {
      AllPacketsSplit(mbs, i);
      FitMiddle(suite, n, ps, Packets(mbs[i]), AllPackets(mbs[i + 1..]));
    }
  }

  lemma WrittenMore(suite: Suite, packet: bool, n: nat, mbs: seq<MultiBuffer>, i: nat, ps: seq<bytes>, wire: bytes,
                    qs: seq<bytes>, more: bytes)
    requires i < |mbs| && Written(suite, packet, n, mbs[..i], ps, wire) && Emits(suite, n + |ps|, qs, more)
    requires Flatten(qs) == Flatten(mbs[i]) && (packet ==> qs == Packets(mbs[i]))
    ensures Written(suite, packet, n, mbs[..i + 1], ps + qs, wire + more)
  {
    EmitsAppend(suite, n, ps, wire, qs, more);
    AllTake(mbs, i);
    AllPacketsSplit(mbs, i);
  }

  /** A list of nonempty writes. */
  method WriteAll(w: AuthenticationWriter, mbs: seq<MultiBuffer>) returns (wire: bytes, ghost ps: seq<bytes>)
    requires w.suite.Lawful() && w.InStep() && RegularSource(mbs) && Accepting(w.suite, w.packet, w.pads, mbs)
    requires forall i :: 0 <= i < |mbs| ==> Flatten(mbs[i]) != []
    modifies w
    ensures w.InStep() && w.seals == old(w.seals) + |ps|
    ensures Emits(w.suite, old(w.seals), ps, wire) && Flatten(ps) == All(mbs)
  {
    wire, ps := [], [];
    for i := 0 to |mbs|
      invariant w.InStep() && w.seals == old(w.seals) + |ps|
      invariant Written(w.suite, w.packet, old(w.seals), mbs[..i], ps, wire)
    {
      NextFits(w.suite, w.packet, old(w.seals), mbs, i, ps, wire);
      var more;
      ghost var qs;
      more, qs := WriteOne(w, mbs[i]);
      WrittenMore(w.suite, w.packet, old(w.seals), mbs, i, ps, wire, qs, more);
      wire, ps := wire + more, ps + qs;
    }
    assert mbs[..|mbs|] == mbs;
  }

  /** wire holds what was written in mbs, in records numbered from n. */
  ghost predicate Carries(suite: Suite, n: nat, mbs: seq<MultiBuffer>, wire: bytes) {
    exists ps: seq<bytes> :: Holds(suite, n, ps, All(mbs), wire)
  }

  /** Any list of nonempty writes and then the empty one. */
  method WriteAndClose(w: AuthenticationWriter, mbs: seq<MultiBuffer>) returns (wire: bytes)
    requires w.suite.Lawful() && w.InStep() && RegularSource(mbs) && Accepting(w.suite, w.packet, w.pads, mbs)
    requires forall i :: 0 <= i < |mbs| ==> Flatten(mbs[i]) != []
    modifies w
    ensures w.InStep() && Carries(w.suite, old(w.seals), mbs, wire)
  {
    ghost var ps;
    wire, ps := WriteAll(w, mbs);
    var end;
    ghost var qs;
    end, qs := w.WriteMultiBuffer([]);
    CloseStream(w.suite, old(w.seals), ps, wire, qs, end);
    wire := wire + end;
  }

  /**
   * End to end, at the other side. The bytes that WriteAndClose of a new writer sends, with anything
   * behind them, arrive cut into buffers in any way. Reading until the end is reported gives back
   * exactly what was written.
   */
  method Transfer(suite: Suite, source: seq<MultiBuffer>,
                  ghost mbs: seq<MultiBuffer>, ghost wire: bytes, ghost more: bytes)
    returns (data: bytes)
    requires suite.Lawful() && RegularSource(source) && Carries(suite, 0, mbs, wire) && All(source) == wire + more
    ensures data == All(mbs)
  {
    ghost var ps: seq<bytes> :| Holds(suite, 0, ps, All(mbs), wire);
    var reader := new BufferedReader(source);
    var r := new AuthenticationReader(suite, reader);
    data := ReadToEnd(r, ps, more);
  }

  // ---------------------------------------------------------------------------------------------
  // Out of step
  // ---------------------------------------------------------------------------------------------

  /** No cipher, plain sizes, and one byte of padding for the second draw only. */
  function PlainSuite(): Suite {
    Suite(0, 2, 1, (n, p) => p, (n, p) => Some(p),
          (n, x) => PutU16(x), (n, s) => if |s| == 2 then Some(U16(s[0], s[1])) else None,
          n => if n == 1 then 1 else 0, n => if n == 1 then [0] else [])
  }

  /**
   * A packet of 8191 bytes is refused. The packet [7] behind it goes out with the padding of the
   * second draw, which the other side expects on its second record: however the wire is cut, it
   * delivers padding as content.
   */
  method RefusedPacketGarbles(source: seq<MultiBuffer>) returns (wire: bytes, delivered: bytes)
    requires RegularSource(source)
    ensures wire == PlainSuite().Sent(0, 0, Packets([Zeros(8191), [7]]))
    ensures All(source) == wire ==> delivered == [7, 0]
  {
    PlainLawful();
    var w := new AuthenticationWriter(PlainSuite(), true);
    ghost var ps;
    wire, ps := w.WritePacket([Zeros(8191), [7]]);
    GarbledRecord(Zeros(8191), [7]);
    delivered := ReadOne(PlainSuite(), source, wire, [7, 0]);
  }

  /** A reader that is given the first record reads its payload p. */
  method ReadOne(suite: Suite, source: seq<MultiBuffer>, ghost wire: bytes, ghost p: bytes) returns (payload: bytes)
    requires suite.Lawful() && RegularSource(source) && p != [] && suite.Fits(0, p) && wire == suite.Record(0, p)
    ensures All(source) == wire ==> payload == p
  {
    var reader := new BufferedReader(source);
    var r := new AuthenticationReader(suite, reader);
    ghost var ps := [p];
    assert ps[1..] == [] && suite.Wire(0, ps) == wire + [] == wire;
    assert All(source) == wire ==> reader.Remaining() == [] + wire == wire == wire + [];
    assert All(source) == wire ==> r.Synced(ps, []);
    var n, attempt;
    if All(source) == wire {
      NextInFront(suite, r.Here(), ps, []);
    }
    payload, n, attempt := r.ReadRecord(false);
  }

  lemma PlainLawful()
    ensures PlainSuite().Lawful()
  {
  }

  lemma GarbledRecord(a: bytes, b: bytes)
    requires |a| == 8191 && b == [7]
    ensures Packets([a, b]) == [a, b]
    ensures var suite := PlainSuite();
      && suite.Fits(0, [7, 0]) && suite.Sent(0, 0, [a, b]) == suite.Record(0, [7, 0])
      && |suite.Record(0, [7, 0])| == 4
  {
    var suite, mb := PlainSuite(), [a, b];
    assert mb[1..] == [b] && [b][1..] == [];
    assert Packets([b]) == [b];
    assert suite.Sent(1, 0, [b]) == suite.Drawn(1, 0, b) + [] == suite.Drawn(1, 0, b);
  }
}
