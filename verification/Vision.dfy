/**
 * The objects of proxy/proxy.go that carry Vision: the traffic state shared by the two directions
 * of a connection, the reader and the writer. Every method is proved against the functions of
 * VisionCodec, TlsFilter, VisionReading and VisionWriting.
 */
module Vision {
  import opened Bytes
  import opened Buffers
  import opened VisionCodec
  import opened TlsFilter
  import Reading = VisionReading
  import Writing = VisionWriting
  import Link = VisionLink

  /** The fields of InboundState and OutboundState, which differ only in their names. */
  datatype LinkState = LinkState(
    within: bool, readerDirect: bool, decoder: Decoder, isPadding: bool, writerDirect: bool)
  {
    function ReadSide(): Reading.ReadSide {
      Reading.ReadSide(decoder, within, readerDirect)
    }
  }

  const FRESH_LINK := LinkState(true, false, START, true, false)

  class TrafficState {
    const uuid: bytes
    var filter: Filter
    var inbound: LinkState
    var outbound: LinkState

    constructor (userUuid: bytes)
      ensures uuid == userUuid && filter == FRESH_FILTER
      ensures inbound == FRESH_LINK && outbound == FRESH_LINK
    {
      uuid := userUuid;
      filter := FRESH_FILTER;
      inbound, outbound := FRESH_LINK, FRESH_LINK;
    }

    /** The link that a reader of the given direction uses; a writer uses the other one. */
    function ReaderLink(isUplink: bool): LinkState
      reads this
    {
      if isUplink then inbound else outbound
    }

    function WriterLink(isUplink: bool): LinkState
      reads this
    {
      if isUplink then outbound else inbound
    }

    method SetReaderLink(isUplink: bool, l: LinkState)
      modifies this`inbound, this`outbound
      ensures ReaderLink(isUplink) == l && ReaderLink(!isUplink) == old(ReaderLink(!isUplink))
    {
      if isUplink {
        inbound := l;
      } else {
        outbound := l;
      }
    }

    /** One iteration: a header byte, a slice of content or a slice of padding is taken off b. */
    static method Take(d: Decoder, b: bytes) returns (d1: Decoder, b1: bytes, piece: bytes)
      requires d.Valid() && !d.Idle() && |b| > 0
      ensures |b1| < |b|
      ensures Settle(d1).Valid()
      ensures Scan(d, b) == Scan(Settle(d1), b1)
      ensures ScanOut(d, b) == piece + ScanOut(Settle(d1), b1)
    {
      if d.command > 0 {
        d1, b1, piece := HeaderByte(d, b[0]), b[1..], [];
        assert Settle(d1) == Next(d, b[0]);
      } else if d.content > 0 {
        var len := Min(d.content, |b|);
        ScanContent(d, b, len);
        d1, b1, piece := d.(content := d.content - len), b[len..], b[..len];
      } else {
        var len := Min(d.padding, |b|);
        ScanPadding(d, b, len);
        d1, b1, piece := d.(padding := d.padding - len), b[len..], [];
      }
    }

    /** The decode loop; after a terminating block the rest of the buffer is kept as it is. */
    static method DecodeLoop(start: Decoder, input: bytes) returns (d: Decoder, out: bytes)
      requires start.Valid() && !start.Idle()
      ensures d == Scan(start, input) && d.Valid()
      ensures out == Clip(ScanOut(start, input))
    {
      var b := input;
      ghost var taken: bytes := [];
      d, out := start, [];
      while |b| > 0
        invariant d.Valid() && !d.Idle()
        invariant Scan(start, input) == Scan(d, b)
        invariant ScanOut(start, input) == taken + ScanOut(d, b)
        invariant out == Clip(taken)
        decreases |b|
      {
        var piece;
        d, b, piece := Take(d, b);
        ClipConcat(taken, piece);
        Assoc(taken, piece, ScanOut(Settle(d), b));
        out := Clip(out + piece);
        taken := taken + piece;
        if d.command <= 0 && d.content <= 0 && d.padding <= 0 {
          if d.current == 0 {
            d := d.(command := 5);
          } else {
            d := d.(command := -1, content := -1, padding := -1);
            ClipConcat(taken, b);
            out := Clip(out + b);
            return;
          }
        }
      }
    }

    /** Removes padding from one buffer and keeps the position inside the current block. */
    method XtlsUnpadding(buffer: bytes, isUplink: bool) returns (out: bytes)
      requires ReaderLink(isUplink).decoder.Valid()
      modifies this`inbound, this`outbound
      ensures ReaderLink(isUplink) ==
              old(ReaderLink(isUplink)).(decoder := Feed(uuid, old(ReaderLink(isUplink)).decoder, buffer))
      ensures ReaderLink(isUplink).decoder.Valid()
      ensures ReaderLink(!isUplink) == old(ReaderLink(!isUplink))
      ensures |buffer| <= BUF_SIZE ==> out == FeedOut(uuid, old(ReaderLink(isUplink)).decoder, buffer)
      ensures |out| > BUF_SIZE ==> out == buffer
    {
      var d := ReaderLink(isUplink).decoder;
      var b := buffer;
      if d.command == -1 && d.content == -1 && d.padding == -1 {
        if |b| >= 21 && uuid == b[..16] {
          b := b[16..];
          d := d.(command := 5);
        } else {
          return b;
        }
      }
      d, out := DecodeLoop(d, b);
      SetReaderLink(isUplink, ReaderLink(isUplink).(decoder := d));
    }

    /** One packet: the hello it may start, and the verdict on the hello it belongs to. */
    static method FilterPacket(f: Filter, b: bytes, beyond: u16) returns (g: Filter, stop: bool)
      ensures g == FilterOne(f, b, beyond) && stop == StopsAt(f, b, beyond)
    {
      g, stop := f.(toFilter := f.toFilter - 1), false;
      if |b| >= 6 {
        if b[..3] == SERVER_HANDSHAKE && b[5] == SERVER_HELLO {
          g := g.(remaining := U16(b[3], b[4]) + 5, isTls12 := true, isTls := true);
          if |b| >= 79 && g.remaining >= 79 {
            g := g.(cipher := SuiteOf(b, beyond));
          }
        } else if b[..2] == CLIENT_HANDSHAKE && b[5] == CLIENT_HELLO {
          g := g.(isTls := true);
        }
      }
      assert g == Classify(f.(toFilter := f.toFilter - 1), b, beyond);
      if g.remaining > 0 {
        var end := Min(g.remaining, |b|);
        g := g.(remaining := g.remaining - |b|);
        if Contains(b[..end], SUPPORTED_VERSIONS) {
          if DirectSuite(g.cipher) {
            g := g.(enableXtls := true);
          }
          g, stop := g.(toFilter := 0), true;
        } else if g.remaining <= 0 {
          g, stop := g.(toFilter := 0), true;
        }
      }
    }

    /** Shows packets to the filter until it has reached a verdict. */
    method XtlsFilterTls(mb: seq<Slot>)
      modifies this`filter
      ensures filter == FilterAll(old(filter), mb)
    {
      var i := 0;
      while i < |mb|
        invariant 0 <= i <= |mb|
        invariant FilterAll(old(filter), mb) == FilterAll(filter, mb[i..])
      {
        assert mb[i..][1..] == mb[i + 1..];
        if !mb[i].Nil? {
          var stop;
          filter, stop := FilterPacket(filter, mb[i].data, mb[i].beyond);
          if stop {
            return;
          }
        }
        i := i + 1;
      }
    }
  }

  // ---------------------------------------------------------------------------------------------
  // VisionReader
  // ---------------------------------------------------------------------------------------------

  /** The nonempty outputs of unpadding the buffers one by one. */
  function Unpadded(uuid: bytes, d: Decoder, bufs: seq<bytes>): seq<bytes>
    decreases |bufs|
  {
    if bufs == [] then []
    else
      var o := FeedOut(uuid, d, bufs[0]);
      (if o == [] then [] else [o]) + Unpadded(uuid, Feed(uuid, d, bufs[0]), bufs[1..])
  }

  lemma {:induction false} UnpaddedBytes(uuid: bytes, d: Decoder, bufs: seq<bytes>)
    ensures Flatten(Unpadded(uuid, d, bufs)) == FeedAllOut(uuid, d, bufs)
    decreases |bufs|
  {
    if bufs != [] {
      var o, d1 := FeedOut(uuid, d, bufs[0]), Feed(uuid, d, bufs[0]);
      UnpaddedBytes(uuid, d1, bufs[1..]);
      FlattenAppend([o], Unpadded(uuid, d1, bufs[1..]));
      assert Flatten([o]) == o + Flatten<byte>([]);
      assert [] + Unpadded(uuid, d1, bufs[1..]) == Unpadded(uuid, d1, bufs[1..]);
    }
  }

  lemma UnpaddedStep(uuid: bytes, d: Decoder, bufs: seq<bytes>, out: seq<bytes>)
    requires bufs != []
    ensures var o, d1 := FeedOut(uuid, d, bufs[0]), Feed(uuid, d, bufs[0]);
            out + Unpadded(uuid, d, bufs) == (if o == [] then out else out + [o]) + Unpadded(uuid, d1, bufs[1..])
  {
    var o, more := FeedOut(uuid, d, bufs[0]), Unpadded(uuid, Feed(uuid, d, bufs[0]), bufs[1..]);
    if o == [] {
      assert [] + more == more;
    } else {
      Assoc(out, [o], more);
    }
  }

  /** Buffers as the filter sees them; beyond(i) is what lies behind the i-th. */
  function Slots(bufs: seq<bytes>, beyond: nat -> u16): seq<Slot> {
    seq(|bufs|, i requires 0 <= i < |bufs| => Slot(bufs[i], beyond(i)))
  }

  predicate RegularBuffers(bufs: seq<bytes>) {
    forall i :: 0 <= i < |bufs| ==> |bufs[i]| <= BUF_SIZE
  }

  class VisionReader {
    const state: TrafficState
    const isUplink: bool
    /** What the TLS layer below has received and not yet handed up. */
    var input: bytes
    var rawInput: bytes

    constructor (state: TrafficState, isUplink: bool, input: bytes, rawInput: bytes)
      ensures this.state == state && this.isUplink == isUplink
      ensures this.input == input && this.rawInput == rawInput
    {
      this.state, this.isUplink := state, isUplink;
      this.input, this.rawInput := input, rawInput;
    }

    /** Unpads every buffer of a read. */
    method UnpadAll(bufs: seq<bytes>) returns (out: seq<bytes>)
      requires RegularBuffers(bufs)
      requires state.ReaderLink(isUplink).decoder.Valid()
      modifies state`inbound, state`outbound
      ensures out == Unpadded(state.uuid, old(state.ReaderLink(isUplink)).decoder, bufs)
      ensures state.ReaderLink(isUplink) == old(state.ReaderLink(isUplink)).(
                decoder := FeedAll(state.uuid, old(state.ReaderLink(isUplink)).decoder, bufs))
      ensures state.ReaderLink(isUplink).decoder.Valid()
      ensures state.ReaderLink(!isUplink) == old(state.ReaderLink(!isUplink))
    {
      ghost var l0 := state.ReaderLink(isUplink);
      ghost var d := l0.decoder;
      out := [];
      var i := 0;
      while i < |bufs|
        invariant 0 <= i <= |bufs|
        invariant d.Valid() && state.ReaderLink(isUplink) == l0.(decoder := d)
        invariant state.ReaderLink(!isUplink) == old(state.ReaderLink(!isUplink))
        invariant FeedAll(state.uuid, l0.decoder, bufs) == FeedAll(state.uuid, d, bufs[i..])
        invariant Unpadded(state.uuid, l0.decoder, bufs) == out + Unpadded(state.uuid, d, bufs[i..])
      {
        assert bufs[i..][0] == bufs[i] && bufs[i..][1..] == bufs[i + 1..];
        UnpaddedStep(state.uuid, d, bufs[i..], out);
        var o := state.XtlsUnpadding(bufs[i], isUplink);
        if |o| > 0 {
          out := out + [o];
        }
        d := Feed(state.uuid, d, bufs[i]);
        i := i + 1;
      }
      assert bufs[i..] == [];
    }

    /** The mode test; it does not look at the remaining command bytes. */
    static method TestMode(l: LinkState) returns (l1: LinkState)
      ensures l1.ReadSide() == Reading.ModeTest(l.ReadSide())
      ensures l1 == l.(within := l1.within, readerDirect := l1.readerDirect)
    {
      l1 := l;
      if l.decoder.content > 0 || l.decoder.padding > 0 || l.decoder.current == 0 {
        l1 := l.(within := true);
      } else if l.decoder.current == 1 {
        l1 := l.(within := false);
      } else if l.decoder.current == 2 {
        l1 := l.(within := false, readerDirect := true);
      }
    }

    /** The decoding half of a read: unpad if the mode asks for it, then test the mode. */
    method Decode(buffer: seq<bytes>) returns (out: seq<bytes>)
      requires RegularBuffers(buffer)
      requires state.ReaderLink(isUplink).decoder.Valid()
      requires !state.ReaderLink(isUplink).readerDirect
      modifies state`inbound, state`outbound
      ensures var l := old(state.ReaderLink(isUplink));
              var r := Reading.Read(state.filter.toFilter > 0, buffer);
              var side1 := Reading.ReadNext(state.uuid, l.ReadSide(), r);
              && state.ReaderLink(isUplink) ==
                   l.(decoder := side1.dec, within := side1.within, readerDirect := side1.direct)
              && out == Shown(state.uuid, l.ReadSide(), r)
      ensures state.ReaderLink(isUplink).decoder.Valid()
      ensures state.ReaderLink(!isUplink) == old(state.ReaderLink(!isUplink))
    {
      out := buffer;
      if state.ReaderLink(isUplink).within || state.filter.toFilter > 0 {
        out := UnpadAll(buffer);
        var l := TestMode(state.ReaderLink(isUplink));
        state.SetReaderLink(isUplink, l);
      }
    }

    /**
     * One read: `buffer` is what the reader below returned. The output is what the run of reads in
     * VisionReading says, followed by the bytes stuck in the TLS layer when this read switches to
     * direct copy.
     */
    method ReadMultiBuffer(buffer: seq<bytes>, beyond: nat -> u16) returns (out: seq<bytes>)
      requires RegularBuffers(buffer)
      requires state.ReaderLink(isUplink).decoder.Valid()
      requires Inv(state.filter)
      modifies this, state
      ensures state.ReaderLink(isUplink).decoder.Valid() && Inv(state.filter)
      ensures state.ReaderLink(!isUplink) == old(state.ReaderLink(!isUplink))
      ensures Flatten(buffer) == [] || old(state.ReaderLink(isUplink)).readerDirect ==>
                out == buffer && unchanged(state) && unchanged(this)
      ensures Flatten(buffer) != [] && !old(state.ReaderLink(isUplink)).readerDirect ==>
                var l := old(state.ReaderLink(isUplink));
                var r := Reading.Read(old(state.filter).toFilter > 0, buffer);
                var side1 := Reading.ReadNext(state.uuid, l.ReadSide(), r);
                && state.ReaderLink(isUplink) ==
                     l.(decoder := side1.dec, within := side1.within, readerDirect := side1.direct)
                && state.filter == Observe(old(state.filter), Slots(Shown(state.uuid, l.ReadSide(), r), beyond))
                && (if side1.direct
                    then Flatten(out) == Reading.ReadOut(state.uuid, l.ReadSide(), r) + (old(input) + old(rawInput))
                         && input == [] && rawInput == []
                    else Flatten(out) == Reading.ReadOut(state.uuid, l.ReadSide(), r)
                         && input == old(input) && rawInput == old(rawInput))
    {
      FlattenEmpty(buffer);
      if forall i :: 0 <= i < |buffer| ==> buffer[i] == [] {
        return buffer;
      }
      if state.ReaderLink(isUplink).readerDirect {
        return buffer;
      }
      ghost var side := state.ReaderLink(isUplink).ReadSide();
      ShownBytes(state.uuid, side, Reading.Read(state.filter.toFilter > 0, buffer));
      out := Decode(buffer);
      ObserveKeeps(state.filter, Slots(out, beyond));
      if state.filter.toFilter > 0 {
        state.XtlsFilterTls(Slots(out, beyond));
      }
      if state.ReaderLink(isUplink).readerDirect {
        FlattenTwo(out, input, rawInput);
        out := out + [input, rawInput];
        input, rawInput := [], [];
      }
    }
  }

  /** The buffers that a read passes on, and that the filter is shown. */
  function Shown(uuid: bytes, side: Reading.ReadSide, r: Reading.Read): seq<bytes> {
    if Reading.Decoding(side, r) then Unpadded(uuid, side.dec, r.bufs) else r.bufs
  }

  lemma ShownBytes(uuid: bytes, side: Reading.ReadSide, r: Reading.Read)
    ensures Flatten(Shown(uuid, side, r)) == Reading.ReadOut(uuid, side, r)
  {
    UnpaddedBytes(uuid, side.dec, r.bufs);
  }

  lemma FlattenTwo(out: seq<bytes>, a: bytes, b: bytes)
    ensures Flatten(out + [a, b]) == Flatten(out) + (a + b)
  {
    FlattenAppend(out, [a, b]);
    assert [a, b][1..] == [b];
    assert Flatten([b]) == b + Flatten<byte>([]);
  }

  // ---------------------------------------------------------------------------------------------
  // VisionWriter
  // ---------------------------------------------------------------------------------------------

  /** Frames one buffer; no content stands for a nil buffer. Extend cannot run over the buffer. */
  method XtlsPadding(content: bytes, command: byte, id: bytes, long: bool, draw: nat) returns (b: Buffer)
    requires Writing.Small(content) && |id| <= UUID_LEN
    ensures fresh(b) && fresh(b.v) && b.Valid()
    ensures b.Contents() == id + Encode(Writing.PaddedBlock(command, content, long, draw))
    ensures |b.Contents()| <= BUF_SIZE
  {
    var contentLen := |content|;
    var paddingLen;
    if contentLen < 900 && long {
      paddingLen := Min(draw, 499) + 900 - contentLen;
    } else {
      paddingLen := Min(draw, 255);
    }
    if paddingLen > BUF_SIZE - 21 - contentLen {
      paddingLen := BUF_SIZE - 21 - contentLen;
    }
    b := new Buffer();
    var header := [command] + PutU16(contentLen) + PutU16(paddingLen);
    b.WriteAll(id);
    b.WriteAll(header);
    b.WriteAll(content);
    b.Extend(paddingLen);
    ghost var block := Writing.PaddedBlock(command, content, long, draw);
    assert Header(block) == header;
    FrameBytes(id, header, content, Zeros(paddingLen));
  }

  lemma FrameBytes(id: bytes, header: bytes, content: bytes, padding: bytes)
    ensures ((([] + id) + header) + content) + padding == id + (header + content + padding)
  {
  }

  /** Splits the buffers that leave no room for a frame. */
  method ReshapeMultiBuffer(bufs: seq<bytes>) returns (out: seq<bytes>)
    ensures out == Writing.Reshape(bufs)
  {
    var need := 0;
    for i := 0 to |bufs|
      invariant need == 0 <==> forall j :: 0 <= j < i ==> |bufs[j]| < BUF_SIZE - 21
      invariant need >= 0
    {
      if |bufs[i]| >= BUF_SIZE - 21 {
        need := need + 1;
      }
    }
    if need == 0 {
      NothingToReshape(bufs);
      return bufs;
    }
    out := [];
    var i := 0;
    while i < |bufs|
      invariant 0 <= i <= |bufs|
      invariant Writing.Reshape(bufs) == out + Writing.Reshape(bufs[i..])
    {
      assert bufs[i..][0] == bufs[i] && bufs[i..][1..] == bufs[i + 1..];
      Assoc(out, Writing.ReshapeOne(bufs[i]), Writing.Reshape(bufs[i + 1..]));
      if |bufs[i]| >= BUF_SIZE - 21 {
        var index := Writing.LastIndex(bufs[i], APPLICATION_DATA, |bufs[i]|);
        if index < 21 || index > BUF_SIZE - 21 {
          index := BUF_SIZE / 2;
        }
        out := out + [bufs[i][..index], bufs[i][index..]];
      } else {
        out := out + [bufs[i]];
      }
      i := i + 1;
    }
    assert bufs[i..] == [];
  }

  lemma {:induction false} NothingToReshape(bufs: seq<bytes>)
    requires forall j :: 0 <= j < |bufs| ==> |bufs[j]| < BUF_SIZE - 21
    ensures Writing.Reshape(bufs) == bufs
  {
    if bufs != [] {
      NothingToReshape(bufs[1..]);
    }
  }

  /** bufs are the bytes of the buffers outs, one by one. */
  ghost predicate Writes(bufs: seq<bytes>, outs: seq<Writing.Out>) {
    && |bufs| == |outs|
    && Link.Sized(outs)
    && forall i :: 0 <= i < |outs| ==> bufs[i] == Link.OutBytes(outs[i])
  }

  lemma WritesOne(bufs: seq<bytes>, outs: seq<Writing.Out>, b: bytes, o: Writing.Out)
    requires Writes(bufs, outs) && (o.Padded? ==> o.block.Fits()) && b == Link.OutBytes(o)
    ensures Writes(bufs + [b], outs + [o])
  {
  }

  lemma WritesRaw(bufs: seq<bytes>, outs: seq<Writing.Out>, rest: seq<bytes>)
    requires Writes(bufs, outs)
    ensures Writes(bufs + rest, outs + Writing.Raws(rest))
  {
    var all := outs + Writing.Raws(rest);
    forall i | |outs| <= i < |all| ensures all[i] == Writing.Raw(rest[i - |outs|]) {}
  }

  class VisionWriter {
    const state: TrafficState
    const isUplink: bool
    /** writeOnceUserUUID */
    var id: bytes
    /** The writer below has been replaced by the raw connection. */
    var raw: bool

    constructor (state: TrafficState, isUplink: bool)
      ensures this.state == state && this.isUplink == isUplink
      ensures id == state.uuid && !raw
    {
      this.state, this.isUplink := state, isUplink;
      id, raw := state.uuid, false;
    }

    function Side(): Writing.WriteSide
      reads this, state
    {
      var l := state.WriterLink(isUplink);
      Writing.WriteSide(l.isPadding, l.writerDirect, id)
    }

    /** One iteration of the padding loop; `stop` leaves the remaining buffers unpadded. */
    static method PadOne(f: Filter, w: Writing.WriteSide, long: bool, b: bytes, last: bool, draw: nat)
      returns (w1: Writing.WriteSide, stop: bool, padded: bytes, ghost o: Writing.Out)
      requires Writing.Small(b) && |w.id| <= UUID_LEN
      ensures w1 == Writing.AfterOne(f, w, b)
      ensures stop == Writing.Breaks(f, b)
      ensures o.Padded? && o.block.Fits() && padded == Link.OutBytes(o)
      ensures o == Writing.Padded(w.id, Writing.PaddedBlock(
                     Writing.CommandFor(f, w, if last then [b] else [b, []]), b,
                     long || Writing.AppData(f, b), draw))
    {
      var command, padLong := CONTINUE, long;
      w1, stop := w.(id := []), false;
      if f.isTls && |b| >= 6 && b[..3] == APPLICATION_DATA {
        if f.enableXtls {
          w1 := w1.(direct := true);
        }
        if last {
          command := END;
          if f.enableXtls {
            command := DIRECT;
          }
        }
        padLong := true;
        w1 := w1.(isPadding := false);
      } else if !f.isTls12 && f.toFilter <= 1 {
        w1 := w1.(isPadding := false);
        command, stop := END, true;
      } else if last && !w.isPadding {
        command := END;
        if f.enableXtls {
          command := DIRECT;
        }
      }
      var buffer := XtlsPadding(b, command, w.id, padLong, draw);
      padded := buffer.v[buffer.start..buffer.end];
      o := Writing.Padded(w.id, Writing.PaddedBlock(command, b, padLong, draw));
    }

    /** The padding loop over the reshaped buffers of a call. */
    static method PadLoop(f: Filter, side: Writing.WriteSide, bufs: seq<bytes>, draws: Writing.Draws)
      returns (w: Writing.WriteSide, written: seq<bytes>)
      requires Writing.AllSmall(bufs) && |side.id| <= UUID_LEN
      ensures w == Writing.PadSide(f, side, bufs)
      ensures Writes(written, Writing.PadOuts(f, side, f.isTls, bufs, draws))
    {
      var long := f.isTls;
      ghost var all, final := Writing.PadOuts(f, side, long, bufs, draws), Writing.PadSide(f, side, bufs);
      ghost var outs: seq<Writing.Out> := [];
      w, written := side, [];
      var i := 0;
      while i < |bufs|
        invariant 0 <= i <= |bufs|
        invariant |w.id| <= UUID_LEN
        invariant Writes(written, outs)
        invariant all == outs + Writing.PadOuts(f, w, long, bufs[i..], draws)
        invariant final == Writing.PadSide(f, w, bufs[i..])
      {
        PadStep(f, w, long, bufs, i, draws, outs);
        var w1, stop, padded, o := PadOne(f, w, long, bufs[i], i == |bufs| - 1, draws(|bufs| - i));
        WritesOne(written, outs, padded, o);
        written := written + [padded];
        if stop {
          WritesRaw(written, outs + [o], bufs[i + 1..]);
          return w1, written + bufs[i + 1..];
        }
        long := long && !(f.isTls && |bufs[i]| >= 6 && bufs[i][..3] == APPLICATION_DATA);
        outs, w := outs + [o], w1;
        i := i + 1;
      }
      assert bufs[i..] == [];
      assert outs + [] == outs;
    }

    /** One long Continue block. */
    static method PadLong(id: bytes, content: bytes, draw: nat) returns (written: seq<bytes>)
      requires Writing.Small(content) && |id| <= UUID_LEN
      ensures Writes(written, [Writing.Padded(id, Writing.PaddedBlock(CONTINUE, content, true, draw))])
    {
      var b := XtlsPadding(content, CONTINUE, id, true, draw);
      written := [b.v[b.start..b.end]];
    }

    /** The padding branch of a call. */
    static method PadCall(f: Filter, side: Writing.WriteSide, mb: seq<Slot>, draws: Writing.Draws)
      returns (w: Writing.WriteSide, written: seq<bytes>)
      requires Writing.Regular(mb) && |side.id| <= UUID_LEN && side.isPadding && !side.direct
      ensures w == Writing.WriteNext(f, side, mb)
      ensures Writes(written, Writing.WriteOuts(f, side, mb, draws))
    {
      if |mb| == 1 && mb[0].Nil? {
        written := PadLong(side.id, mb[0].Data(), draws(1));
        return side.(id := []), written;
      }
      Writing.ReshapedIsSmall(mb);
      var bufs := ReshapeMultiBuffer(Writing.Datas(mb));
      w, written := PadLoop(f, side, bufs, draws);
      assert side == side.(direct := false);
    }

    /**
     * One write. Both the new state of this direction and the buffers handed on are those that the
     * runs in VisionWriting speak of; the filter sees the buffers first.
     */
    method WriteMultiBuffer(mb: seq<Slot>, draws: Writing.Draws) returns (written: seq<bytes>)
      requires Writing.Regular(mb) && |id| <= UUID_LEN
      modifies this, state
      ensures state.filter == Observe(old(state.filter), mb)
      ensures Side() == Writing.WriteNext(state.filter, old(Side()), mb)
      ensures Writes(written, Writing.WriteOuts(state.filter, old(Side()), mb, draws))
      ensures raw == (old(raw) || old(Side()).direct)
      ensures state.WriterLink(!isUplink) == old(state.WriterLink(!isUplink))
      ensures state.WriterLink(isUplink).ReadSide() == old(state.WriterLink(isUplink).ReadSide())
    {
      var l := state.WriterLink(isUplink);
      if l.writerDirect {
        raw := true;
        l := l.(writerDirect := false);
      }
      if state.filter.toFilter > 0 {
        state.XtlsFilterTls(mb);
      }
      if l.isPadding {
        var w;
        w, written := PadCall(state.filter, Writing.WriteSide(true, false, id), mb, draws);
        id := w.id;
        l := l.(isPadding := w.isPadding, writerDirect := w.direct);
      } else {
        written := Writing.Datas(mb);
        WritesRaw([], [], written);
        assert [] + written == written && [] + Writing.Raws(written) == Writing.Raws(written);
      }
      state.SetReaderLink(!isUplink, l);
    }
  }

  lemma PadStep(
    f: Filter, w: Writing.WriteSide, long: bool, bufs: seq<bytes>, i: nat, draws: Writing.Draws,
    outs: seq<Writing.Out>)
    requires i < |bufs| && Writing.AllSmall(bufs)
    ensures var b, w1 := bufs[i], Writing.AfterOne(f, w, bufs[i]);
            var o := Writing.Padded(w.id, Writing.PaddedBlock(
                       Writing.CommandFor(f, w, if i == |bufs| - 1 then [b] else [b, []]), b,
                       long || Writing.AppData(f, b), draws(|bufs| - i)));
            && outs + Writing.PadOuts(f, w, long, bufs[i..], draws) ==
                 (outs + [o]) + (if Writing.Breaks(f, b) then Writing.Raws(bufs[i + 1..])
                                 else Writing.PadOuts(f, w1, long && !Writing.AppData(f, b), bufs[i + 1..], draws))
            && Writing.PadSide(f, w, bufs[i..]) ==
                 (if Writing.Breaks(f, b) then w1 else Writing.PadSide(f, w1, bufs[i + 1..]))
  {
    var b, rest := bufs[i], bufs[i..];
    assert rest[0] == b && rest[1..] == bufs[i + 1..];
    var o := Writing.Padded(w.id, Writing.PaddedBlock(Writing.CommandFor(f, w, rest), b,
                       long || Writing.AppData(f, b), draws(|bufs| - i)));
    if Writing.Breaks(f, b) {
      Assoc(outs, [o], Writing.Raws(bufs[i + 1..]));
    } else {
      Assoc(outs, [o],
            Writing.PadOuts(f, Writing.AfterOne(f, w, b), long && !Writing.AppData(f, b), bufs[i + 1..], draws));
    }
  }
}
