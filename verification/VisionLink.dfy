/** Sender and receiver together: what one peer writes is what the other peer reads. */
module VisionLink {
  import opened Bytes
  import opened VisionCodec
  import opened VisionWriting
  import opened VisionReading

  function OutBytes(o: Out): bytes
    requires o.Padded? ==> o.block.Fits()
  {
    if o.Padded? then o.id + Encode(o.block) else o.data
  }

  ghost predicate Sized(outs: seq<Out>) {
    forall i :: 0 <= i < |outs| && outs[i].Padded? ==> outs[i].block.Fits()
  }

  /** The bytes of the emitted buffers. */
  function Wire(outs: seq<Out>): bytes
    requires Sized(outs)
  {
    if outs == [] then [] else OutBytes(outs[0]) + Wire(outs[1..])
  }

  function BlocksOf(outs: seq<Out>): (bs: seq<Block>)
    ensures |bs| == Pads(outs)
    ensures forall i :: 0 <= i < |bs| ==> bs[i] == outs[i].block
  {
    if outs == [] || outs[0].Raw? then [] else [outs[0].block] + BlocksOf(outs[1..])
  }

  /** Everything behind the padded buffers. */
  function TailOf(outs: seq<Out>): bytes {
    if outs != [] && outs[0].Padded? then TailOf(outs[1..]) else Payloads(outs)
  }

  lemma ShapedSized(outs: seq<Out>, id: bytes, last: byte)
    requires Shaped(outs, id, last)
    ensures Sized(outs)
    ensures forall b | b in BlocksOf(outs) :: b.Fits()
    ensures last == CONTINUE ==> Open(BlocksOf(outs))
    ensures last != CONTINUE ==> Terminated(BlocksOf(outs)) && BlocksOf(outs)[|BlocksOf(outs)| - 1].command == last
  {
    var bs, n := BlocksOf(outs), Pads(outs);
    forall i | 0 <= i < n
      ensures bs[i].Fits() && bs[i].command == (if i == n - 1 then last else CONTINUE)
    {
      assert outs[i].block == bs[i];
    }
    forall b | b in bs ensures b.Fits() {
      var i :| 0 <= i < n && bs[i] == b;
    }
    assert Open(bs[..n - 1]);
  }

  lemma {:induction false} RawWire(outs: seq<Out>)
    requires forall i :: 0 <= i < |outs| ==> outs[i].Raw?
    ensures Wire(outs) == Payloads(outs)
  {
    if outs != [] {
      RawWire(outs[1..]);
    }
  }

  lemma ShapedTail(outs: seq<Out>, id: bytes, last: byte)
    requires Shaped(outs, id, last) && Pads(outs) > 1
    ensures Shaped(outs[1..], [], last)
    ensures outs[0].id == id && outs[0].block.command == CONTINUE
  {
    var rest := outs[1..];
    assert Pads(rest) == Pads(outs) - 1;
    forall i | 0 <= i < |rest| ensures rest[i] == outs[i + 1] {}
  }

  /** The wire is the user id, the encoded blocks and the raw tail. */
  lemma {:induction false} ShapedWire(outs: seq<Out>, id: bytes, last: byte)
    requires Shaped(outs, id, last) && Sized(outs)
    requires forall b | b in BlocksOf(outs) :: b.Fits()
    ensures Wire(outs) == id + (EncodeAll(BlocksOf(outs)) + TailOf(outs))
    ensures Payloads(outs) == Contents(BlocksOf(outs)) + TailOf(outs)
    decreases |outs|
  {
    var o, rest := outs[0], outs[1..];
    var bs, more := BlocksOf(outs), BlocksOf(rest);
    assert bs[0] == o.block && bs[1..] == more;
    if Pads(outs) == 1 {
      assert forall i :: 0 <= i < |rest| ==> rest[i] == outs[i + 1];
      RawWire(rest);
      assert more == [] && TailOf(rest) == Payloads(rest);
    } else {
      ShapedTail(outs, id, last);
      ShapedWire(rest, [], last);
      assert [] + (EncodeAll(more) + TailOf(rest)) == EncodeAll(more) + TailOf(rest);
    }
    WireCons(id, Encode(o.block), EncodeAll(more), TailOf(rest));
    Assoc(o.block.content, Contents(more), TailOf(rest));
  }

  lemma WireCons(id: bytes, block: bytes, more: bytes, tail: bytes)
    ensures (id + block) + (more + tail) == id + ((block + more) + tail)
    ensures more == [] ==> more + tail == tail
  {
    Assoc(id, block, more + tail);
    Assoc(block, more, tail);
  }

  /** The stream that direction u of a connection has emitted after the given events. */
  function Stream(uuid: bytes, events: seq<Event>, u: bool): seq<Out>
    requires RegularRun(events)
  {
    Emitted(FreshPeer(uuid), events, u)
  }

  function SideAfter(uuid: bytes, events: seq<Event>, u: bool): WriteSide {
    Run(FreshPeer(uuid), events).Side(u)
  }

  /** The stream of any run is the user id, well-formed blocks and a raw tail. */
  lemma StreamFormat(uuid: bytes, events: seq<Event>, u: bool)
    requires RegularRun(events)
    ensures var outs, w := Stream(uuid, events, u), SideAfter(uuid, events, u);
            var bs, tail := BlocksOf(outs), TailOf(outs);
            && Sized(outs)
            && (forall b | b in bs :: b.Fits())
            && Written(events, u) == Contents(bs) + tail
            && (outs != [] ==> Wire(outs) == uuid + (EncodeAll(bs) + tail))
            && (w.isPadding ==> Open(bs) && tail == [])
            && (outs != [] && w.isPadding ==> bs != [])
            && (!w.isPadding ==> Terminated(bs) && (bs[|bs| - 1].command == END || bs[|bs| - 1].command == DIRECT))
            && (outs == [] ==> w.isPadding)
            && (Switches(FreshPeer(uuid), events, u) || w.direct <==>
                  !w.isPadding && bs[|bs| - 1].command == DIRECT)
  {
    var outs, w := Stream(uuid, events, u), SideAfter(uuid, events, u);
    WriterRun(FreshPeer(uuid), events, u, uuid, []);
    assert [] + outs == outs;
    if outs != [] {
      var last := if w.isPadding then CONTINUE else if Shaped(outs, uuid, END) then END else DIRECT;
      ShapedSized(outs, uuid, last);
      ShapedWire(outs, uuid, last);
      if w.isPadding {
        AllPadded(outs);
      }
    }
  }

  lemma {:induction false} AllPadded(outs: seq<Out>)
    requires Pads(outs) == |outs|
    ensures TailOf(outs) == []
  {
    if outs != [] {
      AllPadded(outs[1..]);
    }
  }

  /**
   * End to end, at the decoder. For every run of the sender and every cut of its stream into
   * buffers, the first of which holds a user id and a header: while padding goes on, the receiver
   * has decoded exactly what was written; once it has ended, the receiver's output is exactly what
   * was written if and only if no later buffer looks like a fresh padded stream.
   */
  lemma VisionDecodesWhatWasWritten(uuid: bytes, events: seq<Event>, u: bool, bufs: seq<bytes>)
    requires |uuid| == UUID_LEN && RegularRun(events)
    requires Stream(uuid, events, u) != [] && Sized(Stream(uuid, events, u))
    requires bufs != [] && |bufs[0]| >= UUID_LEN + HEADER_LEN
    requires Flatten(bufs) == Wire(Stream(uuid, events, u))
    ensures if SideAfter(uuid, events, u).isPadding
            then FeedAllOut(uuid, START, bufs) == Written(events, u)
            else FeedAllOut(uuid, START, bufs) == Written(events, u) <==>
                 NoRestart(uuid, Feed(uuid, START, bufs[0]), bufs[1..])
  {
    var outs := Stream(uuid, events, u);
    var bs, tail := BlocksOf(outs), TailOf(outs);
    StreamFormat(uuid, events, u);
    if SideAfter(uuid, events, u).isPadding {
      assert EncodeAll(bs) + tail == EncodeAll(bs);
      UnpaddingOpen(uuid, bs, bufs);
    } else {
      UnpaddingRoundTrip(uuid, bs, tail, bufs);
    }
  }

  /**
   * End to end, at the reader. While padding goes on, VisionReader has delivered exactly what was
   * written; once it has ended, it delivers exactly what was written if and only if no read boundary
   * is broken and nothing restarts. It copies directly in the end exactly if the writer does, or is
   * about to.
   */
  lemma VisionDeliversWhatWasWritten(uuid: bytes, events: seq<Event>, u: bool, run: seq<Read>)
    requires |uuid| == UUID_LEN && RegularRun(events)
    requires Stream(uuid, events, u) != [] && Sized(Stream(uuid, events, u))
    requires Opens(run) && WellTimed(run) && Arrived(run) == Wire(Stream(uuid, events, u))
    ensures var w, cut := SideAfter(uuid, events, u), Stripped(run);
            var right := w.isPadding || (Unbroken(BEGUN, cut) && Steady(uuid, BEGUN, cut));
            && (Delivered(uuid, FRESH_SIDE, run) == Written(events, u) <==> right)
            && (right ==>
                  var end := RunReads(uuid, FRESH_SIDE, run);
                  && end.within == w.isPadding
                  && (end.direct <==> Switches(FreshPeer(uuid), events, u) || w.direct))
  {
    var outs := Stream(uuid, events, u);
    var bs, tail := BlocksOf(outs), TailOf(outs);
    StreamFormat(uuid, events, u);
    if SideAfter(uuid, events, u).isPadding {
      assert EncodeAll(bs) + tail == EncodeAll(bs);
      VisionReaderOpen(uuid, bs, run);
    } else {
      VisionReaderRun(uuid, bs, tail, run);
    }
  }
}
