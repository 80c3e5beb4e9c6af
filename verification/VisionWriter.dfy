/**
 * The sending half of Vision: padding of one buffer, reshaping, and the decision when to stop
 * padding, over any run of writes in both directions interleaved with the TLS filter.
 */
module VisionWriting {
  import opened Bytes
  import opened VisionCodec
  import opened TlsFilter

  /** The room that the user id and a header take in a buffer. */
  const FRAME_ROOM := UUID_LEN + HEADER_LEN

  // ---------------------------------------------------------------------------------------------
  // One padded buffer
  // ---------------------------------------------------------------------------------------------

  /** The padding length for a content of the given length; draw, cut to its range, is the random number. */
  function PaddingLen(contentLen: nat, long: bool, draw: nat): int {
    var wanted :=
      if contentLen < 900 && long then Min(draw, 499) + 900 - contentLen else Min(draw, 255);
    Min(wanted, BUF_SIZE - FRAME_ROOM - contentLen)
  }

  /** The arithmetic of XtlsPadding never leaves a buffer, exactly for contents of up to 8171 bytes. */
  lemma PaddingFits(contentLen: nat, long: bool, draw: nat)
    ensures PaddingLen(contentLen, long, draw) >= 0 <==> contentLen <= BUF_SIZE - FRAME_ROOM
    ensures contentLen <= BUF_SIZE - FRAME_ROOM ==>
              FRAME_ROOM + contentLen + PaddingLen(contentLen, long, draw) <= BUF_SIZE
    ensures long && contentLen < 900 ==> 900 <= contentLen + PaddingLen(contentLen, long, draw) < 1400
  {
  }

  /**
   * Which padding lengths are drawn: 0 to 255, or for short contents that are to be hidden those that
   * bring content and padding to 900 to 1399 bytes, as far as there is room.
   */
  lemma PaddingRange(contentLen: nat, long: bool, n: nat)
    requires contentLen <= 8171
    ensures (exists draw: nat :: PaddingLen(contentLen, long, draw) == n) <==>
            if long && contentLen < 900 then 900 <= contentLen + n <= 1399
            else n <= 255 && contentLen + n <= 8171
  {
    if long && contentLen < 900 {
      if 900 <= contentLen + n <= 1399 {
        assert PaddingLen(contentLen, long, contentLen + n - 900) == n;
      }
    } else if n <= 255 && contentLen + n <= 8171 {
      assert PaddingLen(contentLen, long, n) == n;
    }
  }

  predicate Small(b: bytes) {
    |b| <= BUF_SIZE - FRAME_ROOM
  }

  function PaddedBlock(command: byte, content: bytes, long: bool, draw: nat): (b: Block)
    requires Small(content)
    ensures b.Fits()
  {
    Block(command, content, Zeros(PaddingLen(|content|, long, draw)))
  }

  // ---------------------------------------------------------------------------------------------
  // Reshaping
  // ---------------------------------------------------------------------------------------------

  /** The last position of pattern in s, or -1. */
  function LastIndex(s: bytes, pattern: bytes, upTo: int): (r: int)
    requires upTo <= |s|
    ensures -1 <= r <= upTo || r == -1
    ensures r >= 0 ==> At(s, pattern, r)
    ensures forall i :: r < i <= upTo ==> !At(s, pattern, i)
    decreases upTo + 1
  {
    if upTo < 0 then -1
    else if At(s, pattern, upTo) then upTo
    else LastIndex(s, pattern, upTo - 1)
  }

  /** Where an oversized buffer is cut: at its last application data record, or in the middle. */
  function CutAt(b: bytes): (k: nat)
    ensures |b| >= BUF_SIZE - FRAME_ROOM ==> FRAME_ROOM <= k <= BUF_SIZE - FRAME_ROOM && k <= |b|
  {
    var i := LastIndex(b, APPLICATION_DATA, |b|);
    if i < FRAME_ROOM || i > BUF_SIZE - FRAME_ROOM then BUF_SIZE / 2 else i
  }

  function ReshapeOne(b: bytes): seq<bytes> {
    if |b| >= BUF_SIZE - FRAME_ROOM then [b[..CutAt(b)], b[CutAt(b)..]] else [b]
  }

  function Reshape(bufs: seq<bytes>): seq<bytes> {
    if bufs == [] then [] else ReshapeOne(bufs[0]) + Reshape(bufs[1..])
  }

  /** Reshaping keeps the bytes and leaves room for a frame around every buffer. */
  lemma {:induction false} ReshapeCorrect(bufs: seq<bytes>)
    requires forall i :: 0 <= i < |bufs| ==> |bufs[i]| <= BUF_SIZE
    ensures Flatten(Reshape(bufs)) == Flatten(bufs)
    ensures forall i :: 0 <= i < |Reshape(bufs)| ==> Small(Reshape(bufs)[i])
    ensures bufs != [] ==> Reshape(bufs) != []
  {
    if bufs != [] {
      var b := bufs[0];
      ReshapeCorrect(bufs[1..]);
      FlattenAppend(ReshapeOne(b), Reshape(bufs[1..]));
      if |b| >= BUF_SIZE - FRAME_ROOM {
        assert ReshapeOne(b)[1..] == [b[CutAt(b)..]];
        assert Flatten(ReshapeOne(b)[1..]) == b[CutAt(b)..] + Flatten<byte>([]);
        assert Flatten(ReshapeOne(b)) == b[..CutAt(b)] + b[CutAt(b)..] == b;
      } else {
        assert Flatten(ReshapeOne(b)) == b + Flatten<byte>([]) == b;
      }
    }
  }

  /** An application data record of section 5.1 of RFC 8446 starts at position i. */
  predicate RecordAt(b: bytes, i: int) {
    0 <= i && i + 3 <= |b| && b[i] == 0x17 && b[i + 1] == 0x03 && b[i + 2] == 0x03
  }

  lemma RecordIsAt(b: bytes, i: int)
    ensures RecordAt(b, i) <==> At(b, APPLICATION_DATA, i)
  {
    if 0 <= i && i + 3 <= |b| {
      var t := b[i..i + 3];
      assert t[0] == b[i] && t[1] == b[i + 1] && t[2] == b[i + 2];
      assert t == APPLICATION_DATA <==> t[0] == 0x17 && t[1] == 0x03 && t[2] == 0x03;
    }
  }

  /**
   * A buffer is cut in two exactly if it has 8171 bytes or more: where its last application data
   * record starts, if that is neither in the first 21 bytes nor behind byte 8171, and in the middle
   * otherwise.
   */
  lemma ReshapeCuts(b: bytes, k: nat)
    requires |b| <= BUF_SIZE
    ensures |b| < 8171 ==> Reshape([b]) == [b]
    ensures |b| >= 8171 && 21 <= k <= 8171 && RecordAt(b, k) && (forall i :: k < i <= |b| ==> !RecordAt(b, i)) ==>
              Reshape([b]) == [b[..k], b[k..]]
    ensures |b| >= 8171 && (forall i :: 21 <= i <= 8171 && RecordAt(b, i) ==>
                              exists j :: 8171 < j <= |b| && RecordAt(b, j)) ==>
              Reshape([b]) == [b[..4096], b[4096..]]
  {
    assert |[b][1..]| == 0;
    assert Reshape([b]) == ReshapeOne(b) + [] == ReshapeOne(b);
    forall i ensures RecordAt(b, i) <==> At(b, APPLICATION_DATA, i) {
      RecordIsAt(b, i);
    }
  }

  lemma {:induction false} ReshapeAppend(a: seq<bytes>, b: seq<bytes>)
    ensures Reshape(a + b) == Reshape(a) + Reshape(b)
  {
    if a == [] {
      assert a + b == b;
    } else {
      assert (a + b)[0] == a[0] && (a + b)[1..] == a[1..] + b;
      ReshapeAppend(a[1..], b);
      Assoc(ReshapeOne(a[0]), Reshape(a[1..]), Reshape(b));
    }
  }

  // ---------------------------------------------------------------------------------------------
  // One call of WriteMultiBuffer
  // ---------------------------------------------------------------------------------------------

  /** What a call hands to the underlying writer, buffer by buffer. */
  datatype Out = Padded(id: bytes, block: Block) | Raw(data: bytes) {
    function Payload(): bytes {
      if Padded? then block.content else data
    }
  }

  /** isPadding, the direct-copy flag and writeOnceUserUUID of one direction. */
  datatype WriteSide = WriteSide(isPadding: bool, direct: bool, id: bytes)

  predicate AppData(f: Filter, b: bytes) {
    f.isTls && |b| >= 6 && b[..3] == APPLICATION_DATA
  }

  /** Padding ends one packet early when no TLS 1.2 or later has been seen. */
  predicate GiveUp(f: Filter) {
    !f.isTls12 && f.toFilter <= 1
  }

  function Final(f: Filter): byte {
    if f.enableXtls then DIRECT else END
  }

  function Raws(bufs: seq<bytes>): seq<Out> {
    seq(|bufs|, i requires 0 <= i < |bufs| => Raw(bufs[i]))
  }

  /** The command for the first buffer of bufs. */
  function CommandFor(f: Filter, w: WriteSide, bufs: seq<bytes>): byte
    requires bufs != []
  {
    if AppData(f, bufs[0]) then (if |bufs| == 1 then Final(f) else CONTINUE)
    else if GiveUp(f) then END
    else if |bufs| == 1 && !w.isPadding then Final(f)
    else CONTINUE
  }

  /** The side after the first buffer of bufs. */
  function AfterOne(f: Filter, w: WriteSide, b: bytes): WriteSide {
    WriteSide(
      w.isPadding && !AppData(f, b) && !GiveUp(f),
      w.direct || (AppData(f, b) && f.enableXtls),
      [])
  }

  /** Whether the loop stops after b and leaves the rest unpadded. */
  predicate Breaks(f: Filter, b: bytes) {
    !AppData(f, b) && GiveUp(f)
  }

  predicate AllSmall(bufs: seq<bytes>) {
    forall i :: 0 <= i < |bufs| ==> Small(bufs[i])
  }

  function PadSide(f: Filter, w: WriteSide, bufs: seq<bytes>): WriteSide
    decreases |bufs|
  {
    if bufs == [] then w
    else if Breaks(f, bufs[0]) then AfterOne(f, w, bufs[0])
    else PadSide(f, AfterOne(f, w, bufs[0]), bufs[1..])
  }

  /** The random numbers of a call, by the number of buffers still to pad. */
  type Draws = nat -> nat

  function PadOuts(f: Filter, w: WriteSide, long: bool, bufs: seq<bytes>, draws: Draws): seq<Out>
    requires AllSmall(bufs)
    decreases |bufs|
  {
    if bufs == [] then []
    else
      var b := bufs[0];
      var first := Padded(w.id, PaddedBlock(CommandFor(f, w, bufs), b, long || AppData(f, b), draws(|bufs|)));
      [first] +
      (if Breaks(f, b) then Raws(bufs[1..])
       else PadOuts(f, AfterOne(f, w, b), long && !AppData(f, b), bufs[1..], draws))
  }

  function Datas(mb: seq<Slot>): seq<bytes> {
    seq(|mb|, i requires 0 <= i < |mb| => mb[i].Data())
  }

  predicate Regular(mb: seq<Slot>) {
    forall i :: 0 <= i < |mb| ==> |mb[i].Data()| <= BUF_SIZE
  }

  lemma ReshapedIsSmall(mb: seq<Slot>)
    requires Regular(mb)
    ensures AllSmall(Reshape(Datas(mb)))
    ensures Flatten(Reshape(Datas(mb))) == Flatten(Datas(mb))
    ensures mb != [] ==> Reshape(Datas(mb)) != []
  {
    ReshapeCorrect(Datas(mb));
  }

  /** The caller's way to ask for a block that hides the length of a request header. */
  predicate LoneNil(mb: seq<Slot>) {
    |mb| == 1 && mb[0].Nil?
  }

  /** The side after a call; the filter has already seen the call's buffers. */
  function WriteNext(f: Filter, w: WriteSide, mb: seq<Slot>): WriteSide {
    var w0 := w.(direct := false);
    if !w.isPadding then w0
    else if LoneNil(mb) then w0.(id := [])
    else PadSide(f, w0, Reshape(Datas(mb)))
  }

  function WriteOuts(f: Filter, w: WriteSide, mb: seq<Slot>, draws: Draws): seq<Out>
    requires Regular(mb)
  {
    if !w.isPadding then Raws(Datas(mb))
    else if LoneNil(mb) then [Padded(w.id, PaddedBlock(CONTINUE, mb[0].Data(), true, draws(1)))]
    else
      ReshapedIsSmall(mb);
      PadOuts(f, w.(direct := false), f.isTls, Reshape(Datas(mb)), draws)
  }

  // ---------------------------------------------------------------------------------------------
  // The shape of one call
  // ---------------------------------------------------------------------------------------------

  function Payloads(outs: seq<Out>): bytes {
    if outs == [] then [] else outs[0].Payload() + Payloads(outs[1..])
  }

  /** The number of padded buffers at the front. */
  function Pads(outs: seq<Out>): (n: nat)
    ensures n <= |outs|
    ensures forall i :: 0 <= i < n ==> outs[i].Padded?
    ensures n < |outs| ==> outs[n].Raw?
  {
    if outs == [] || outs[0].Raw? then 0 else 1 + Pads(outs[1..])
  }

  /**
   * outs continues a padded stream: padded buffers, all but the last of them Continue, the user id
   * on the first only, and after them raw buffers. The last command is `last`.
   */
  predicate Shaped(outs: seq<Out>, id: bytes, last: byte) {
    var n := Pads(outs);
    && n > 0
    && (forall i :: 0 <= i < n ==> outs[i].block.Fits() && outs[i].id == if i == 0 then id else [])
    && (forall i :: 0 <= i < n - 1 ==> outs[i].block.command == CONTINUE)
    && outs[n - 1].block.command == last
    && (forall i :: n <= i < |outs| ==> outs[i].Raw?)
    && (last == CONTINUE ==> n == |outs|)
  }

  lemma ShapedCons(o: Out, outs: seq<Out>, last: byte)
    requires o.Padded? && o.block.Fits() && o.block.command == CONTINUE
    requires Shaped(outs, [], last)
    ensures Shaped([o] + outs, o.id, last)
  {
    var all := [o] + outs;
    assert all[1..] == outs;
    assert Pads(all) == 1 + Pads(outs);
    forall i | 1 <= i < |all| ensures all[i] == outs[i - 1] {}
  }

  lemma ShapedLast(o: Out)
    requires o.Padded? && o.block.Fits()
    ensures Shaped([o] + [], o.id, o.block.command)
  {
    assert ([o] + [])[1..] == [];
  }

  lemma ShapedBreak(o: Out, rest: seq<bytes>)
    requires o.Padded? && o.block.Fits() && o.block.command != CONTINUE
    ensures Shaped([o] + Raws(rest), o.id, o.block.command)
  {
    var all := [o] + Raws(rest);
    assert all[1..] == Raws(rest);
    assert Pads(Raws(rest)) == 0;
    forall i | 1 <= i < |all| ensures all[i].Raw? {}
  }

  lemma {:induction false} RawPayloads(bufs: seq<bytes>)
    ensures Payloads(Raws(bufs)) == Flatten(bufs)
  {
    if bufs != [] {
      assert Raws(bufs)[1..] == Raws(bufs[1..]);
      RawPayloads(bufs[1..]);
    }
  }

  /** Within a call that started padding, the direct-copy flag is set once padding ends, if at all. */
  predicate Coherent(f: Filter, w: WriteSide) {
    w.direct == (!w.isPadding && f.enableXtls)
  }

  lemma {:induction false} PadSideCoherent(f: Filter, w: WriteSide, bufs: seq<bytes>)
    requires Inv(f) && Coherent(f, w) && bufs != []
    ensures Coherent(f, PadSide(f, w, bufs))
    ensures PadSide(f, w, bufs).id == []
    ensures PadSide(f, w, bufs).isPadding ==> w.isPadding
    decreases |bufs|
  {
    if !Breaks(f, bufs[0]) && |bufs| > 1 {
      PadSideCoherent(f, AfterOne(f, w, bufs[0]), bufs[1..]);
    }
  }

  /** Padding the buffers of one call: Continue up to the buffer that ends the padding. */
  lemma {:induction false} PadShape(f: Filter, w: WriteSide, long: bool, bufs: seq<bytes>, draws: Draws)
    requires Inv(f) && AllSmall(bufs) && bufs != []
    ensures Shaped(PadOuts(f, w, long, bufs, draws), w.id,
                   if PadSide(f, w, bufs).isPadding then CONTINUE else Final(f))
    decreases |bufs|
  {
    var b, rest := bufs[0], bufs[1..];
    var outs := PadOuts(f, w, long, bufs, draws);
    var w1, long1 := AfterOne(f, w, b), long && !AppData(f, b);
    if Breaks(f, b) {
      ShapedBreak(outs[0], rest);
    } else if rest == [] {
      assert PadOuts(f, w1, long1, rest, draws) == [];
      ShapedLast(outs[0]);
    } else {
      PadShape(f, w1, long1, rest, draws);
      ShapedCons(outs[0], PadOuts(f, w1, long1, rest, draws),
                 if PadSide(f, w1, rest).isPadding then CONTINUE else Final(f));
    }
  }

  lemma {:induction false} PadPayload(f: Filter, w: WriteSide, long: bool, bufs: seq<bytes>, draws: Draws)
    requires AllSmall(bufs)
    ensures Payloads(PadOuts(f, w, long, bufs, draws)) == Flatten(bufs)
    decreases |bufs|
  {
    if bufs != [] {
      var b, rest := bufs[0], bufs[1..];
      var outs := PadOuts(f, w, long, bufs, draws);
      if Breaks(f, b) {
        RawPayloads(rest);
        assert outs[1..] == Raws(rest);
      } else {
        var w1, long1 := AfterOne(f, w, b), long && !AppData(f, b);
        PadPayload(f, w1, long1, rest, draws);
        assert outs[1..] == PadOuts(f, w1, long1, rest, draws);
      }
    }
  }

  predicate EmitsDirect(outs: seq<Out>) {
    exists i :: 0 <= i < |outs| && outs[i].Padded? && outs[i].block.command == DIRECT
  }

  lemma ShapedDirect(outs: seq<Out>, id: bytes, last: byte)
    requires Shaped(outs, id, last)
    ensures EmitsDirect(outs) <==> last == DIRECT
  {
    assert outs[Pads(outs) - 1].Padded?;
  }

  /**
   * One call. In padding mode it emits Continue blocks and ends the padding, if it does, with one
   * End or Direct block in front of raw buffers; the direct-copy flag is set exactly by a call that
   * emits Direct. Out of padding mode everything is raw. The payload is what was written.
   */
  lemma WriteShape(f: Filter, w: WriteSide, mb: seq<Slot>, draws: Draws)
    requires Inv(f) && Regular(mb)
    ensures var w1, outs := WriteNext(f, w, mb), WriteOuts(f, w, mb, draws);
            && Payloads(outs) == Flatten(Datas(mb))
            && (w1.isPadding ==> w.isPadding)
            && (mb == [] ==> outs == [] && w1 == w.(direct := false))
            && (mb != [] && w.isPadding ==>
                  && Shaped(outs, w.id, if w1.isPadding then CONTINUE else Final(f))
                  && w1.id == [])
            && (!w.isPadding ==> w1.id == w.id && forall i :: 0 <= i < |outs| ==> outs[i].Raw?)
            && (w1.direct <==> EmitsDirect(outs))
  {
    RawPayloads(Datas(mb));
    if w.isPadding && !LoneNil(mb) {
      var w0, bufs := w.(direct := false), Reshape(Datas(mb));
      ReshapedIsSmall(mb);
      PadPayload(f, w0, f.isTls, bufs, draws);
      if mb != [] {
        PadShape(f, w0, f.isTls, bufs, draws);
        PadSideCoherent(f, w0, bufs);
        ShapedDirect(WriteOuts(f, w, mb, draws), w.id, if WriteNext(f, w, mb).isPadding then CONTINUE else Final(f));
      }
    } else if w.isPadding {
      var outs := WriteOuts(f, w, mb, draws);
      assert outs == [outs[0]] && outs[1..] == [];
      assert Datas(mb) == [[]];
      assert Flatten(Datas(mb)) == [] + Flatten<byte>([]);
    }
  }

  // ---------------------------------------------------------------------------------------------
  // When padding ends
  // ---------------------------------------------------------------------------------------------

  /** A buffer that an application data record starts. */
  predicate StartsRecord(b: bytes) {
    |b| >= 6 && RecordAt(b, 0)
  }

  predicate HoldsRecord(bufs: seq<bytes>) {
    exists i :: 0 <= i < |bufs| && StartsRecord(bufs[i])
  }

  lemma RecordIsAppData(f: Filter, b: bytes)
    ensures AppData(f, b) <==> f.isTls && StartsRecord(b)
  {
    RecordIsAt(b, 0);
  }

  lemma HoldsRecordRest(bufs: seq<bytes>)
    requires bufs != []
    ensures HoldsRecord(bufs) <==> StartsRecord(bufs[0]) || HoldsRecord(bufs[1..])
  {
    var rest := bufs[1..];
    if HoldsRecord(rest) {
      var i :| 0 <= i < |rest| && StartsRecord(rest[i]);
      assert StartsRecord(bufs[i + 1]);
    }
    if HoldsRecord(bufs) {
      var i :| 0 <= i < |bufs| && StartsRecord(bufs[i]);
      if i > 0 {
        assert StartsRecord(rest[i - 1]);
      }
    }
  }

  lemma {:induction false} PadSideExact(f: Filter, w: WriteSide, bufs: seq<bytes>)
    requires bufs != []
    ensures PadSide(f, w, bufs).isPadding <==>
            w.isPadding && !(f.isTls && HoldsRecord(bufs)) && (f.isTls12 || f.toFilter > 1)
    decreases |bufs|
  {
    RecordIsAppData(f, bufs[0]);
    HoldsRecordRest(bufs);
    if !Breaks(f, bufs[0]) && |bufs| > 1 {
      PadSideExact(f, AfterOne(f, w, bufs[0]), bufs[1..]);
    }
  }

  /**
   * A call ends the padding exactly if an application data record starts a reshaped buffer on a
   * connection seen as TLS, or no TLS 1.2 or later was seen and at most one packet is left to filter.
   * A lone nil and an empty list end nothing.
   */
  predicate Ends(f: Filter, mb: seq<Slot>) {
    && mb != [] && !(|mb| == 1 && mb[0].Nil?)
    && ((f.isTls && HoldsRecord(Reshape(Datas(mb)))) || (!f.isTls12 && f.toFilter <= 1))
  }

  lemma SideEnds(f: Filter, w: WriteSide, mb: seq<Slot>)
    requires Inv(f) && Regular(mb) && w.isPadding
    ensures WriteNext(f, w, mb).isPadding == !Ends(f, mb)
    ensures WriteNext(f, w, mb).direct == (Ends(f, mb) && f.enableXtls)
  {
    var w0, bufs := w.(direct := false), Reshape(Datas(mb));
    if mb != [] && !LoneNil(mb) {
      ReshapedIsSmall(mb);
      PadSideExact(f, w0, bufs);
      PadSideCoherent(f, w0, bufs);
    }
  }

  /**
   * The last padded buffer of the call that ends the padding has the command Direct (2) if direct
   * copy is enabled, and End (1) otherwise; without an end it has Continue (0).
   */
  lemma PaddingEnds(f: Filter, w: WriteSide, mb: seq<Slot>, draws: Draws)
    requires Inv(f) && Regular(mb) && w.isPadding
    ensures var w1, outs := WriteNext(f, w, mb), WriteOuts(f, w, mb, draws);
            && w1.isPadding == !Ends(f, mb)
            && w1.direct == (Ends(f, mb) && f.enableXtls)
            && (mb != [] ==>
                  && Pads(outs) > 0
                  && outs[Pads(outs) - 1].block.command == if !Ends(f, mb) then 0 else if f.enableXtls then 2 else 1)
  {
    SideEnds(f, w, mb);
    WriteShape(f, w, mb, draws);
  }

  // ---------------------------------------------------------------------------------------------
  // Which blocks are long
  // ---------------------------------------------------------------------------------------------

  /** Up to the first application data record of a TLS connection lengths are hidden, and those of records. */
  predicate Hidden(f: Filter, bufs: seq<bytes>, i: nat)
    requires i < |bufs|
  {
    f.isTls && (StartsRecord(bufs[i]) || !HoldsRecord(bufs[..i]))
  }

  /** Buffer i is padded to hide its length, in a loop that starts out doing so if `long`. */
  predicate Covered(f: Filter, long: bool, bufs: seq<bytes>, i: nat)
    requires i < |bufs|
  {
    f.isTls && (StartsRecord(bufs[i]) || (long && !HoldsRecord(bufs[..i])))
  }

  lemma CoveredRest(f: Filter, long: bool, bufs: seq<bytes>, i: nat)
    requires 0 < i < |bufs|
    ensures Covered(f, long, bufs, i) <==> Covered(f, long && !StartsRecord(bufs[0]), bufs[1..], i - 1)
  {
    assert bufs[..i][0] == bufs[0] && bufs[..i][1..] == bufs[1..][..i - 1];
    HoldsRecordRest(bufs[..i]);
  }

  /** Every padded buffer of a call carries its reshaped buffer, with long padding exactly if covered. */
  lemma {:induction false} PadLengths(f: Filter, w: WriteSide, long: bool, bufs: seq<bytes>, draws: Draws, i: nat)
    requires AllSmall(bufs) && (long ==> f.isTls)
    requires i < |PadOuts(f, w, long, bufs, draws)| && PadOuts(f, w, long, bufs, draws)[i].Padded?
    ensures i < |bufs|
    ensures var b := PadOuts(f, w, long, bufs, draws)[i].block;
            b.content == bufs[i] && |b.padding| == PaddingLen(|bufs[i]|, Covered(f, long, bufs, i), draws(|bufs| - i))
    decreases |bufs|
  {
    var b := bufs[0];
    RecordIsAppData(f, b);
    if i == 0 {
      assert bufs[..0] == [];
    } else {
      assert !Breaks(f, b);
      PadLengths(f, AfterOne(f, w, b), long && !AppData(f, b), bufs[1..], draws, i - 1);
      CoveredRest(f, long, bufs, i);
    }
  }

  /**
   * The length of what is sent. On a connection seen as TLS short contents are hidden in blocks of
   * 900 to 1399 bytes up to the first application data record, and so are the records; any other
   * padding has at most 255 bytes.
   */
  lemma PaddingHides(f: Filter, w: WriteSide, mb: seq<Slot>, draws: Draws, i: nat)
    requires Regular(mb) && w.isPadding && !(|mb| == 1 && mb[0].Nil?)
    requires i < |WriteOuts(f, w, mb, draws)| && WriteOuts(f, w, mb, draws)[i].Padded?
    ensures var bufs, b := Reshape(Datas(mb)), WriteOuts(f, w, mb, draws)[i].block;
            && i < |bufs| && b.content == bufs[i]
            && (if Hidden(f, bufs, i) && |b.content| < 900 then 900 <= |b.content| + |b.padding| <= 1399
                else |b.padding| <= 255)
  {
    ReshapedIsSmall(mb);
    PadLengths(f, w.(direct := false), f.isTls, Reshape(Datas(mb)), draws, i);
  }

  /** A lone nil buffer is sent as one Continue block of 900 to 1399 bytes of padding, with the user id if due. */
  lemma NilHides(f: Filter, w: WriteSide, draws: Draws)
    requires w.isPadding
    ensures var outs := WriteOuts(f, w, [Nil], draws);
            && |outs| == 1 && outs[0].Padded? && outs[0].id == w.id
            && outs[0].block.command == 0 && outs[0].block.content == [] && 900 <= |outs[0].block.padding| <= 1399
    ensures WriteNext(f, w, [Nil]) == WriteSide(true, false, [])
  {
  }

  // ---------------------------------------------------------------------------------------------
  // Whole runs
  // ---------------------------------------------------------------------------------------------

  /** A write in one direction, or packets that a reader of either direction shows to the filter. */
  datatype Event =
    | Write(up: bool, mb: seq<Slot>, draws: Draws)
    | Seen(packets: seq<Slot>)

  datatype Peer = Peer(f: Filter, up: WriteSide, down: WriteSide) {
    function Side(u: bool): WriteSide {
      if u then up else down
    }
  }

  function FreshPeer(uuid: bytes): Peer {
    Peer(FRESH_FILTER, WriteSide(true, false, uuid), WriteSide(true, false, uuid))
  }

  function Step(p: Peer, e: Event): Peer {
    match e
    case Seen(packets) => p.(f := Observe(p.f, packets))
    case Write(u, mb, _) =>
      var g := Observe(p.f, mb);
      if u then Peer(g, WriteNext(g, p.up, mb), p.down) else Peer(g, p.up, WriteNext(g, p.down, mb))
  }

  predicate RegularEvent(e: Event) {
    e.Write? ==> Regular(e.mb)
  }

  /** What an event adds to the stream of direction u. */
  function StepOuts(p: Peer, e: Event, u: bool): seq<Out>
    requires RegularEvent(e)
  {
    if e.Write? && e.up == u then WriteOuts(Observe(p.f, e.mb), p.Side(u), e.mb, e.draws) else []
  }

  function StepData(e: Event, u: bool): bytes {
    if e.Write? && e.up == u then Flatten(Datas(e.mb)) else []
  }

  function Run(p: Peer, events: seq<Event>): Peer
    decreases |events|
  {
    if events == [] then p else Run(Step(p, events[0]), events[1..])
  }

  predicate RegularRun(events: seq<Event>) {
    forall i :: 0 <= i < |events| ==> RegularEvent(events[i])
  }

  /** Everything emitted in direction u. */
  function Emitted(p: Peer, events: seq<Event>, u: bool): seq<Out>
    requires RegularRun(events)
    decreases |events|
  {
    if events == [] then []
    else StepOuts(p, events[0], u) + Emitted(Step(p, events[0]), events[1..], u)
  }

  /** Everything written in direction u. */
  function Written(events: seq<Event>, u: bool): bytes {
    if events == [] then [] else StepData(events[0], u) + Written(events[1..], u)
  }

  /** The stream so far fits the state of its side. */
  predicate InStep(outs: seq<Out>, uuid: bytes, w: WriteSide) {
    if outs == [] then w.isPadding && w.id == uuid
    else
      && w.id == []
      && (if w.isPadding then Shaped(outs, uuid, CONTINUE)
          else Shaped(outs, uuid, END) || Shaped(outs, uuid, DIRECT))
  }

  lemma {:induction false} PadsAppend(a: seq<Out>, b: seq<Out>)
    ensures Pads(a) == |a| ==> Pads(a + b) == |a| + Pads(b)
    ensures Pads(a) < |a| || (b != [] && b[0].Raw?) ==> Pads(a + b) == Pads(a)
  {
    if a == [] {
      assert a + b == b;
    } else if a[0].Padded? {
      assert (a + b)[1..] == a[1..] + b;
      PadsAppend(a[1..], b);
    }
  }

  /** More blocks after Continue blocks. */
  lemma ShapedAppend(a: seq<Out>, b: seq<Out>, uuid: bytes, last: byte)
    requires Shaped(a, uuid, CONTINUE) && Shaped(b, [], last)
    ensures Shaped(a + b, uuid, last)
  {
    PadsAppend(a, b);
    assert Pads(a + b) == |a| + Pads(b);
    forall i | |a| <= i < |a + b| ensures (a + b)[i] == b[i - |a|] {}
    forall i | 0 <= i < |a| ensures (a + b)[i] == a[i] {}
  }

  /** Raw buffers after the end of padding. */
  lemma ShapedRaw(a: seq<Out>, b: seq<Out>, uuid: bytes, last: byte)
    requires Shaped(a, uuid, last) && last != CONTINUE
    requires forall i :: 0 <= i < |b| ==> b[i].Raw?
    ensures Shaped(a + b, uuid, last)
  {
    PadsAppend(a, b);
    if b == [] {
      assert a + b == a;
    } else {
      assert Pads(a + b) == Pads(a);
      forall i | 0 <= i < |a + b| ensures (a + b)[i] == if i < |a| then a[i] else b[i - |a|] {}
    }
  }

  lemma {:induction false} PayloadsAppend(a: seq<Out>, b: seq<Out>)
    ensures Payloads(a + b) == Payloads(a) + Payloads(b)
  {
    if a == [] {
      assert a + b == b;
    } else {
      assert (a + b)[0] == a[0] && (a + b)[1..] == a[1..] + b;
      PayloadsAppend(a[1..], b);
      Assoc(a[0].Payload(), Payloads(a[1..]), Payloads(b));
    }
  }

  /** Some write in direction u finds the direct-copy flag set, and goes around TLS from then on. */
  predicate Switches(p: Peer, events: seq<Event>, u: bool)
    decreases |events|
  {
    events != [] &&
    ((events[0].Write? && events[0].up == u && p.Side(u).direct) || Switches(Step(p, events[0]), events[1..], u))
  }

  lemma EmitsDirectAppend(a: seq<Out>, b: seq<Out>)
    ensures EmitsDirect(a + b) <==> EmitsDirect(a) || EmitsDirect(b)
  {
    assert forall i :: 0 <= i < |a| ==> (a + b)[i] == a[i];
    assert forall i :: 0 <= i < |b| ==> (a + b)[|a| + i] == b[i];
  }

  lemma StepKeeps(p: Peer, e: Event, u: bool, uuid: bytes, log: seq<Out>)
    requires Inv(p.f) && RegularEvent(e) && InStep(log, uuid, p.Side(u))
    ensures Inv(Step(p, e).f)
    ensures InStep(log + StepOuts(p, e, u), uuid, Step(p, e).Side(u))
    ensures Payloads(StepOuts(p, e, u)) == StepData(e, u)
    ensures if e.Write? && e.up == u then Step(p, e).Side(u).direct <==> EmitsDirect(StepOuts(p, e, u))
            else Step(p, e).Side(u) == p.Side(u) && StepOuts(p, e, u) == []
  {
    ObserveKeeps(p.f, if e.Write? then e.mb else e.packets);
    var outs := StepOuts(p, e, u);
    if e.Write? && e.up == u && e.mb != [] {
      WriteCallKeeps(Observe(p.f, e.mb), p.Side(u), e.mb, e.draws, uuid, log);
    } else {
      if e.Write? && e.up == u {
        WriteShape(Observe(p.f, e.mb), p.Side(u), e.mb, e.draws);
      }
      assert log + outs == log;
    }
  }

  lemma WriteCallKeeps(f: Filter, w: WriteSide, mb: seq<Slot>, draws: Draws, uuid: bytes, log: seq<Out>)
    requires Inv(f) && Regular(mb) && mb != [] && InStep(log, uuid, w)
    ensures InStep(log + WriteOuts(f, w, mb, draws), uuid, WriteNext(f, w, mb))
    ensures Payloads(WriteOuts(f, w, mb, draws)) == Flatten(Datas(mb))
    ensures WriteNext(f, w, mb).direct <==> EmitsDirect(WriteOuts(f, w, mb, draws))
  {
    var w1, outs := WriteNext(f, w, mb), WriteOuts(f, w, mb, draws);
    WriteShape(f, w, mb, draws);
    if w.isPadding {
      var last := if w1.isPadding then CONTINUE else Final(f);
      if log == [] {
        assert log + outs == outs;
      } else {
        ShapedAppend(log, outs, uuid, last);
      }
    } else if Shaped(log, uuid, END) {
      ShapedRaw(log, outs, uuid, END);
    } else {
      ShapedRaw(log, outs, uuid, DIRECT);
    }
  }

  /**
   * Every run of writes in both directions and filter steps: in each direction the emitted buffers
   * are Continue blocks, then at most one End or Direct block, then raw buffers; the user id is on
   * the first block only; and the payloads are exactly what was written. A direction switches to
   * direct copy, or has the flag set for its next write, exactly if it has emitted a Direct block.
   */
  lemma {:induction false} WriterRun(p: Peer, events: seq<Event>, u: bool, uuid: bytes, log: seq<Out>)
    requires Inv(p.f) && RegularRun(events) && InStep(log, uuid, p.Side(u))
    ensures Inv(Run(p, events).f)
    ensures InStep(log + Emitted(p, events, u), uuid, Run(p, events).Side(u))
    ensures Payloads(Emitted(p, events, u)) == Written(events, u)
    ensures p.Side(u).direct || EmitsDirect(Emitted(p, events, u)) <==>
            Switches(p, events, u) || Run(p, events).Side(u).direct
    decreases |events|
  {
    if events == [] {
      assert log + Emitted(p, events, u) == log;
    } else {
      var p1, outs, rest := Step(p, events[0]), StepOuts(p, events[0], u), events[1..];
      StepKeeps(p, events[0], u, uuid, log);
      WriterRun(p1, rest, u, uuid, log + outs);
      PayloadsAppend(outs, Emitted(p1, rest, u));
      EmitsDirectAppend(outs, Emitted(p1, rest, u));
      Assoc(log, outs, Emitted(p1, rest, u));
    }
  }

  /** The event writes, in direction u, a buffer that an application data record starts. */
  predicate SendsRecord(e: Event, u: bool) {
    e.Write? && e.up == u && !(|e.mb| == 1 && e.mb[0].Nil?) && HoldsRecord(Reshape(Datas(e.mb)))
  }

  /**
   * On a connection whose ServerHello has enabled direct copy, a direction that is padding goes on
   * until its first write of an application data record, whatever else is written, and that write
   * emits the Direct block.
   */
  lemma {:induction false} DirectAtRecord(p: Peer, events: seq<Event>, u: bool)
    requires Inv(p.f) && RegularRun(events) && p.f.enableXtls && p.Side(u).isPadding
    ensures Run(p, events).Side(u).isPadding <==> forall i :: 0 <= i < |events| ==> !SendsRecord(events[i], u)
    ensures EmitsDirect(Emitted(p, events, u)) <==> exists i :: 0 <= i < |events| && SendsRecord(events[i], u)
    decreases |events|
  {
    if events != [] {
      var e, p1, rest := events[0], Step(p, events[0]), events[1..];
      var outs := StepOuts(p, e, u);
      assert forall i :: 0 <= i < |rest| ==> rest[i] == events[i + 1];
      assert p1.f == p.f;
      EmitsDirectAppend(outs, Emitted(p1, rest, u));
      RecordStep(p, e, u);
      if p1.Side(u).isPadding {
        DirectAtRecord(p1, rest, u);
      } else {
        StaysRaw(p1, rest, u);
      }
    }
  }

  lemma RecordStep(p: Peer, e: Event, u: bool)
    requires Inv(p.f) && RegularEvent(e) && p.f.enableXtls && p.Side(u).isPadding
    ensures Step(p, e).Side(u).isPadding <==> !SendsRecord(e, u)
    ensures EmitsDirect(StepOuts(p, e, u)) <==> SendsRecord(e, u)
  {
    if e.Write? && e.up == u {
      PaddingEnds(p.f, p.Side(u), e.mb, e.draws);
      WriteShape(p.f, p.Side(u), e.mb, e.draws);
      if e.mb == [] {
        assert Reshape(Datas(e.mb)) == [];
      }
    }
  }

  lemma {:induction false} StaysRaw(p: Peer, events: seq<Event>, u: bool)
    requires Inv(p.f) && RegularRun(events) && !p.Side(u).isPadding
    ensures !Run(p, events).Side(u).isPadding && !EmitsDirect(Emitted(p, events, u))
    decreases |events|
  {
    if events != [] {
      var e, p1 := events[0], Step(p, events[0]);
      ObserveKeeps(p.f, if e.Write? then e.mb else e.packets);
      if e.Write? && e.up == u {
        WriteShape(Observe(p.f, e.mb), p.Side(u), e.mb, e.draws);
      }
      EmitsDirectAppend(StepOuts(p, e, u), Emitted(p1, events[1..], u));
      StaysRaw(p1, events[1..], u);
    }
  }

  /**
   * What direct copy is for. While packets are left to filter, a reader shows the filter a TLS 1.3
   * ServerHello with a suite that allows direct copy. From then on each direction that is padding goes
   * on until its first write of an application data record, and that write emits the Direct block.
   */
  lemma HelloThenDirect(p: Peer, random: bytes, sid: bytes, suite: u16, exts: bytes, more: bytes, beyond: u16,
                        rest: seq<Event>, u: bool)
    requires Inv(p.f) && p.f.toFilter > 0 && !p.f.enableXtls && p.Side(u).isPadding && RegularRun(rest)
    requires |random| == 32 && |sid| < 0x100 && |exts| < 0x1_0000 && 0x1301 <= suite <= 0x1304
    requires |HelloBody(random, sid, suite, exts)| + 4 < 0x1_0000 && 30 <= |sid| + |exts|
    requires Contains(exts, [0x00, 0x2b, 0x00, 0x02, 0x03, 0x04])
    ensures var events := [Seen([Slot(HelloRecord(random, sid, suite, exts) + more, beyond)])] + rest;
            && RegularRun(events)
            && (Run(p, events).Side(u).isPadding <==> forall i :: 0 <= i < |rest| ==> !SendsRecord(rest[i], u))
            && (EmitsDirect(Emitted(p, events, u)) <==> exists i :: 0 <= i < |rest| && SendsRecord(rest[i], u))
  {
    var r := HelloRecord(random, sid, suite, exts);
    var packet := Slot(r + more, beyond);
    var seen := Seen([packet]);
    var events, p1 := [seen] + rest, Step(p, seen);
    assert events[0] == seen && events[1..] == rest;
    assert forall i :: 0 < i < |events| ==> events[i] == rest[i - 1];
    HelloFields(random, sid, suite, exts);
    ServerHelloRecognised(p.f, random, sid, suite, exts, more, beyond);
    OnePacket(p.f, packet);
    ObserveKeeps(p.f, [packet]);
    DirectAtRecord(p1, rest, u);
    assert StepOuts(p, seen, u) + Emitted(p1, rest, u) == Emitted(p1, rest, u);
  }
}
