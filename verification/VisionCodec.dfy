/**
 * The wire format of XTLS Vision padding and its resumable decoder.
 *
 * A padded stream is the 16-byte user id followed by blocks
 * `command, content length, padding length, content, padding`; the first block whose command is
 * not Continue is the last one and everything after it is raw.
 */
module VisionCodec {
  import opened Bytes

  const CONTINUE: byte := 0
  const END: byte := 1
  const DIRECT: byte := 2

  const UUID_LEN := 16
  const HEADER_LEN := 5

  // ---------------------------------------------------------------------------------------------
  // Encoder side: blocks
  // ---------------------------------------------------------------------------------------------

  datatype Block = Block(command: byte, content: bytes, padding: bytes) {
    predicate Fits() {
      |content| < 0x1_0000 && |padding| < 0x1_0000
    }
  }

  function Header(b: Block): (h: bytes)
    requires b.Fits()
    ensures |h| == HEADER_LEN
  {
    [b.command] + PutU16(|b.content|) + PutU16(|b.padding|)
  }

  function Encode(b: Block): bytes
    requires b.Fits()
  {
    Header(b) + b.content + b.padding
  }

  function EncodeAll(bs: seq<Block>): bytes
    requires forall b | b in bs :: b.Fits()
  {
    if bs == [] then [] else Encode(bs[0]) + EncodeAll(bs[1..])
  }

  function Contents(bs: seq<Block>): bytes {
    if bs == [] then [] else bs[0].content + Contents(bs[1..])
  }

  /** Every block continues: the padded part of the stream is still open. */
  ghost predicate Open(bs: seq<Block>) {
    forall i :: 0 <= i < |bs| ==> bs[i].Fits() && bs[i].command == CONTINUE
  }

  /** Continue blocks and then exactly one block with another command. */
  ghost predicate Terminated(bs: seq<Block>) {
    && |bs| > 0
    && Open(bs[..|bs| - 1])
    && bs[|bs| - 1].Fits()
    && bs[|bs| - 1].command != CONTINUE
  }

  // ---------------------------------------------------------------------------------------------
  // Decoder side, one byte at a time
  // ---------------------------------------------------------------------------------------------

  /** RemainingCommand, RemainingContent, RemainingPadding and CurrentCommand of one direction. */
  datatype Decoder = Decoder(command: int, content: int, padding: int, current: int) {

    /** The initial state, entered again after a terminating block. */
    predicate Idle() {
      command == -1 && content == -1 && padding == -1
    }

    /** The shapes the decoder can take between two bytes. */
    predicate Valid() {
      || Idle()
      || (&& 0 <= command <= 5
          && (command <= 3 ==> content >= 0)
          && (command <= 1 ==> padding >= 0)
          && (command == 0 ==> content + padding > 0))
    }
  }

  const START := Decoder(-1, -1, -1, 0)

  /** A decoder about to read a block header. */
  const AT_HEADER := Decoder(5, 0, 0, 0)

  /** The decoder left by a block with the given terminating command. */
  function Finished(command: int): Decoder {
    Decoder(-1, -1, -1, command)
  }

  /** One header byte. The low byte of the left operand of each `|` is zero, so it is a sum. */
  function HeaderByte(d: Decoder, x: byte): Decoder {
    if d.command == 5 then d.(command := 4, current := x)
    else if d.command == 4 then d.(command := 3, content := x * 0x100)
    else if d.command == 3 then d.(command := 2, content := d.content + x)
    else if d.command == 2 then d.(command := 1, padding := x * 0x100)
    else d.(command := d.command - 1, padding := d.padding + x)
  }

  /** The block-done test made after every iteration of the decode loop. */
  function Settle(d: Decoder): Decoder {
    if d.command <= 0 && d.content <= 0 && d.padding <= 0 then
      if d.current == 0 then d.(command := 5) else Finished(d.current)
    else
      d
  }

  /** The state after one byte. */
  function Next(d: Decoder, x: byte): Decoder {
    Settle(if d.command > 0 then HeaderByte(d, x)
           else if d.content > 0 then d.(content := d.content - 1)
           else d.(padding := d.padding - 1))
  }

  /** What one byte contributes to the output. */
  function Emit(d: Decoder, x: byte): bytes {
    if d.command <= 0 && d.content > 0 then [x] else []
  }

  /** The state after the bytes s; a terminating block leaves the decoder idle for the rest. */
  function Scan(d: Decoder, s: bytes): Decoder
    decreases |s|
  {
    if d.Idle() || s == [] then d else Scan(Next(d, s[0]), s[1..])
  }

  /** The output for the bytes s; after a terminating block the rest is raw. */
  function ScanOut(d: Decoder, s: bytes): (r: bytes)
    ensures |r| <= |s|
    decreases |s|
  {
    if d.Idle() then s
    else if s == [] then []
    else Emit(d, s[0]) + ScanOut(Next(d, s[0]), s[1..])
  }

  predicate Recognised(uuid: bytes, s: bytes) {
    |s| >= UUID_LEN + HEADER_LEN && uuid == s[..UUID_LEN]
  }

  /** The state after one call of XtlsUnpadding on the buffer s. */
  function Feed(uuid: bytes, d: Decoder, s: bytes): Decoder {
    if d.Idle() && Recognised(uuid, s) then Scan(d.(command := 5), s[UUID_LEN..]) else Scan(d, s)
  }

  /** The output of that call, before it is clipped to the capacity of a buffer. */
  function FeedOut(uuid: bytes, d: Decoder, s: bytes): (r: bytes)
    ensures |r| <= |s|
  {
    if d.Idle() && Recognised(uuid, s) then ScanOut(d.(command := 5), s[UUID_LEN..]) else ScanOut(d, s)
  }

  function FeedAll(uuid: bytes, d: Decoder, bufs: seq<bytes>): Decoder
    decreases |bufs|
  {
    if bufs == [] then d else FeedAll(uuid, Feed(uuid, d, bufs[0]), bufs[1..])
  }

  function FeedAllOut(uuid: bytes, d: Decoder, bufs: seq<bytes>): (r: bytes)
    ensures |r| <= |Flatten(bufs)|
    decreases |bufs|
  {
    if bufs == [] then []
    else FeedOut(uuid, d, bufs[0]) + FeedAllOut(uuid, Feed(uuid, d, bufs[0]), bufs[1..])
  }

  /** A block, byte for byte. */
  lemma BlockBytes(b: Block)
    requires b.Fits()
    ensures var n, m := |b.content|, |b.padding|;
            Encode(b) == [b.command, n / 256, n % 256, m / 256, m % 256] + b.content + b.padding
  {
  }

  /**
   * A decoder between streams looks at the first 16 bytes of a buffer of 21 or more: with the user id
   * there it reads a header from byte 16 on, and otherwise it passes the buffer on.
   */
  lemma StartExactly(uuid: bytes, d: Decoder, s: bytes)
    requires d.Idle()
    ensures if |s| >= 21 && s[..16] == uuid
            then Feed(uuid, d, s) == Scan(Decoder(5, -1, -1, d.current), s[16..])
                 && FeedOut(uuid, d, s) == ScanOut(Decoder(5, -1, -1, d.current), s[16..])
            else Feed(uuid, d, s) == d && FeedOut(uuid, d, s) == s
  {
  }

  // ---------------------------------------------------------------------------------------------
  // Segmentation: scanning is a homomorphism on concatenation
  // ---------------------------------------------------------------------------------------------

  lemma {:induction false} ScanConcat(d: Decoder, a: bytes, b: bytes)
    ensures Scan(d, a + b) == Scan(Scan(d, a), b)
    ensures ScanOut(d, a + b) == ScanOut(d, a) + ScanOut(Scan(d, a), b)
    decreases |a|
  {
    if d.Idle() {
    } else if a == [] {
      assert a + b == b;
    } else {
      var d1 := Next(d, a[0]);
      assert (a + b)[0] == a[0] && (a + b)[1..] == a[1..] + b;
      ScanConcat(d1, a[1..], b);
      Assoc(Emit(d, a[0]), ScanOut(d1, a[1..]), ScanOut(Scan(d1, a[1..]), b));
    }
  }

  lemma {:induction false} ScanValid(d: Decoder, s: bytes)
    requires d.Valid()
    ensures Scan(d, s).Valid()
    decreases |s|
  {
    if !d.Idle() && s != [] {
      ScanValid(Next(d, s[0]), s[1..]);
    }
  }

  /** Content bytes taken in one slice are taken one by one. */
  lemma {:induction false} ScanContent(d: Decoder, s: bytes, n: nat)
    requires d.command == 0 && 0 < n <= d.content && n <= |s|
    ensures Scan(d, s) == Scan(Settle(d.(content := d.content - n)), s[n..])
    ensures ScanOut(d, s) == s[..n] + ScanOut(Settle(d.(content := d.content - n)), s[n..])
    decreases n
  {
    if n > 1 {
      assert s[1..][n - 1..] == s[n..];
      assert s[..n] == [s[0]] + s[1..][..n - 1];
      ScanContent(Next(d, s[0]), s[1..], n - 1);
    }
  }

  /** Padding bytes skipped in one slice are skipped one by one. */
  lemma {:induction false} ScanPadding(d: Decoder, s: bytes, n: nat)
    requires d.command == 0 && d.content == 0 && 0 < n <= d.padding && n <= |s|
    ensures Scan(d, s) == Scan(Settle(d.(padding := d.padding - n)), s[n..])
    ensures ScanOut(d, s) == ScanOut(Settle(d.(padding := d.padding - n)), s[n..])
    decreases n
  {
    if n > 1 {
      assert s[1..][n - 1..] == s[n..];
      ScanPadding(Next(d, s[0]), s[1..], n - 1);
    }
  }

  // ---------------------------------------------------------------------------------------------
  // Round trip
  // ---------------------------------------------------------------------------------------------

  /** The decoder after the five header bytes of b. */
  function AfterHeader(b: Block): Decoder {
    Settle(Decoder(0, |b.content|, |b.padding|, b.command))
  }

  lemma ScanHeader(d: Decoder, b: Block)
    requires d.command == 5 && b.Fits()
    ensures Scan(d, Header(b)) == AfterHeader(b)
    ensures ScanOut(d, Header(b)) == []
  {
    var h := Header(b);
    assert h == [h[0], h[1], h[2], h[3], h[4]];
    ScanFive(d, h[0], h[1], h[2], h[3], h[4]);
    assert U16(h[1], h[2]) == |b.content| && U16(h[3], h[4]) == |b.padding|;
  }

  lemma ScanFive(d: Decoder, a: byte, b: byte, c: byte, e: byte, f: byte)
    requires d.command == 5
    ensures Scan(d, [a, b, c, e, f]) == Settle(Decoder(0, U16(b, c), U16(e, f), a))
    ensures ScanOut(d, [a, b, c, e, f]) == []
  {
    var d3 := d.(command := 2, current := a, content := U16(b, c));
    ScanOne(d, a, [b, c, e, f]);
    ScanOne(d.(command := 4, current := a), b, [c, e, f]);
    ScanOne(d.(command := 3, current := a, content := b * 0x100 as int), c, [e, f]);
    ScanOne(d3, e, [f]);
    ScanOne(d3.(command := 1, padding := e * 0x100 as int), f, []);
    assert [a, b, c, e, f] == [a] + [b, c, e, f];
    assert [b, c, e, f] == [b] + [c, e, f];
    assert [c, e, f] == [c] + [e, f];
    assert [e, f] == [e] + [f];
    assert [f] == [f] + [];
  }

  lemma ScanOne(d: Decoder, x: byte, rest: bytes)
    requires d.command > 0
    ensures Scan(d, [x] + rest) == Scan(Next(d, x), rest)
    ensures ScanOut(d, [x] + rest) == ScanOut(Next(d, x), rest)
  {
    assert ([x] + rest)[1..] == rest;
  }

  /** The decoder after the whole block b. */
  function AfterBlock(b: Block): Decoder {
    if b.command == CONTINUE then AT_HEADER else Finished(b.command)
  }

  /** A whole block yields its content and leaves the decoder at the next header or finished. */
  lemma ScanBlock(d: Decoder, b: Block)
    requires d.command == 5 && b.Fits()
    ensures Scan(d, Encode(b)) == AfterBlock(b)
    ensures ScanOut(d, Encode(b)) == b.content
  {
    ScanHeader(d, b);
    ScanConcat(d, Header(b), b.content + b.padding);
    assert Encode(b) == Header(b) + (b.content + b.padding);
    ScanBody(b);
  }

  lemma ScanBody(b: Block)
    requires b.Fits()
    ensures Scan(AfterHeader(b), b.content + b.padding) == AfterBlock(b)
    ensures ScanOut(AfterHeader(b), b.content + b.padding) == b.content
  {
    var body := b.content + b.padding;
    var d := Decoder(0, 0, |b.padding|, b.command);
    if |b.content| > 0 {
      ScanContent(AfterHeader(b), body, |b.content|);
      assert body[|b.content|..] == b.padding && body[..|b.content|] == b.content;
    } else {
      assert body == b.padding;
    }
    if |b.padding| > 0 {
      ScanPadding(d, b.padding, |b.padding|);
      assert b.padding[|b.padding|..] == [];
    }
  }

  lemma {:induction false} ScanOpen(d: Decoder, bs: seq<Block>)
    requires d.command == 5 && Open(bs)
    ensures Scan(d, EncodeAll(bs)) == (if bs == [] then d else AT_HEADER)
    ensures ScanOut(d, EncodeAll(bs)) == Contents(bs)
    decreases |bs|
  {
    if bs != [] {
      ScanBlock(d, bs[0]);
      ScanConcat(d, Encode(bs[0]), EncodeAll(bs[1..]));
      ScanOpen(AT_HEADER, bs[1..]);
    }
  }

  lemma {:induction false} EncodeAllSnoc(bs: seq<Block>, last: Block)
    requires last.Fits() && forall x | x in bs :: x.Fits()
    ensures EncodeAll(bs + [last]) == EncodeAll(bs) + Encode(last)
    ensures Contents(bs + [last]) == Contents(bs) + last.content
  {
    if bs == [] {
      assert bs + [last] == [last];
      assert [last][1..] == [];
    } else {
      assert (bs + [last])[0] == bs[0] && (bs + [last])[1..] == bs[1..] + [last];
      EncodeAllSnoc(bs[1..], last);
      Assoc(Encode(bs[0]), EncodeAll(bs[1..]), Encode(last));
      Assoc(bs[0].content, Contents(bs[1..]), last.content);
    }
  }

  /** Scanning a terminated stream and a raw tail gives the contents and the tail. */
  lemma ScanTerminated(d: Decoder, bs: seq<Block>, tail: bytes)
    requires d.command == 5 && Terminated(bs)
    ensures forall x | x in bs :: x.Fits()
    ensures Scan(d, EncodeAll(bs) + tail) == Finished(bs[|bs| - 1].command)
    ensures ScanOut(d, EncodeAll(bs) + tail) == Contents(bs) + tail
  {
    var n := |bs| - 1;
    var d1 := if bs[..n] == [] then d else AT_HEADER;
    assert bs == bs[..n] + [bs[n]];
    EncodeAllSnoc(bs[..n], bs[n]);
    ScanOpen(d, bs[..n]);
    ScanConcat(d, EncodeAll(bs[..n]), Encode(bs[n]));
    ScanBlock(d1, bs[n]);
    ScanConcat(d, EncodeAll(bs), tail);
  }

  // ---------------------------------------------------------------------------------------------
  // Any segmentation of the stream
  // ---------------------------------------------------------------------------------------------

  /** No buffer that starts after the terminating block looks like the start of a padded stream. */
  ghost predicate NoRestart(uuid: bytes, d: Decoder, bufs: seq<bytes>)
    decreases |bufs|
  {
    bufs != [] ==>
      && !(d.Idle() && Recognised(uuid, bufs[0]))
      && NoRestart(uuid, Scan(d, bufs[0]), bufs[1..])
  }

  /** Buffer i of bufs starts after the terminating block. */
  ghost predicate Late(d: Decoder, bufs: seq<bytes>, i: nat)
    requires i < |bufs|
  {
    Scan(d, Flatten(bufs[..i])).Idle()
  }

  /** NoRestart, said by position in the stream. */
  lemma {:induction false} NoRestartMeaning(uuid: bytes, d: Decoder, bufs: seq<bytes>)
    ensures NoRestart(uuid, d, bufs) <==>
            forall i: nat :: i < |bufs| && Late(d, bufs, i) ==> !Recognised(uuid, bufs[i])
    decreases |bufs|
  {
    if bufs != [] {
      var d1 := Scan(d, bufs[0]);
      NoRestartMeaning(uuid, d1, bufs[1..]);
      assert Late(d, bufs, 0) == d.Idle() by { assert bufs[..0] == []; }
      forall i: nat | i < |bufs| - 1
        ensures Late(d1, bufs[1..], i) == Late(d, bufs, i + 1) && bufs[1..][i] == bufs[i + 1]
      {
        LateShift(d, bufs, i);
      }
      forall i: nat | 0 < i < |bufs| ensures Late(d, bufs, i) == Late(d1, bufs[1..], i - 1) {
        LateShift(d, bufs, i - 1);
      }
    }
  }

  lemma LateShift(d: Decoder, bufs: seq<bytes>, i: nat)
    requires i + 1 < |bufs|
    ensures Late(Scan(d, bufs[0]), bufs[1..], i) == Late(d, bufs, i + 1)
  {
    assert bufs[..i + 1][1..] == bufs[1..][..i];
    assert Flatten(bufs[..i + 1]) == bufs[0] + Flatten(bufs[1..][..i]);
    ScanConcat(d, bufs[0], Flatten(bufs[1..][..i]));
  }

  lemma CancelLeft(p: bytes, a: bytes, b: bytes)
    ensures p + a == p + b <==> a == b
  {
    if p + a == p + b {
      assert a == (p + a)[|p|..] && b == (p + b)[|p|..];
    }
  }

  /** Feeding buffers one call at a time is scanning their concatenation iff nothing restarts. */
  lemma {:induction false} FeedAllIsScan(uuid: bytes, d: Decoder, bufs: seq<bytes>)
    ensures NoRestart(uuid, d, bufs) ==> FeedAll(uuid, d, bufs) == Scan(d, Flatten(bufs))
    ensures NoRestart(uuid, d, bufs) <==> FeedAllOut(uuid, d, bufs) == ScanOut(d, Flatten(bufs))
    decreases |bufs|
  {
    if bufs != [] {
      FeedAllIsScan(uuid, Scan(d, bufs[0]), bufs[1..]);
      ScanConcat(d, bufs[0], Flatten(bufs[1..]));
      if d.Idle() && Recognised(uuid, bufs[0]) {
        assert |FeedAllOut(uuid, d, bufs)| < |Flatten(bufs)|;
      } else {
        CancelLeft(ScanOut(d, bufs[0]), FeedAllOut(uuid, Scan(d, bufs[0]), bufs[1..]),
                   ScanOut(Scan(d, bufs[0]), Flatten(bufs[1..])));
      }
    }
  }

  /**
   * Decoder correctness. The first buffer carries the user id and at least one whole header. Then
   * the decoder returns exactly the contents and the raw tail if and only if no buffer that starts
   * after the terminating block has the shape of a fresh padded stream.
   */
  lemma UnpaddingRoundTrip(uuid: bytes, bs: seq<Block>, tail: bytes, bufs: seq<bytes>)
    requires |uuid| == UUID_LEN
    requires Terminated(bs)
    requires forall x | x in bs :: x.Fits()
    requires bufs != [] && |bufs[0]| >= UUID_LEN + HEADER_LEN
    requires Flatten(bufs) == uuid + (EncodeAll(bs) + tail)
    ensures var after := Feed(uuid, START, bufs[0]);
            && (NoRestart(uuid, after, bufs[1..]) <==> FeedAllOut(uuid, START, bufs) == Contents(bs) + tail)
            && (NoRestart(uuid, after, bufs[1..]) ==>
                  FeedAll(uuid, START, bufs) == Finished(bs[|bs| - 1].command))
  {
    var body := EncodeAll(bs) + tail;
    ScanTerminated(START.(command := 5), bs, tail);
    FeedStream(uuid, body, bufs);
  }

  /** What comes out when the raw bytes behind the last block arrive as a buffer that looks like a fresh stream. */
  lemma RestartOutput(uuid: bytes, bs: seq<Block>, tail: bytes)
    requires |uuid| == UUID_LEN && Terminated(bs) && (forall x | x in bs :: x.Fits()) && Recognised(uuid, tail)
    ensures var bufs, d := [uuid + EncodeAll(bs), tail], Finished(bs[|bs| - 1].command).(command := 5);
            && Flatten(bufs) == uuid + (EncodeAll(bs) + tail)
            && FeedAllOut(uuid, START, bufs) == Contents(bs) + ScanOut(d, tail[UUID_LEN..])
  {
    var code, d := EncodeAll(bs), START.(command := 5);
    ScanBlocks(d, bs, tail[..0]);
    BlocksLength(bs);
    TwoBuffers(uuid, d, code, tail);
  }

  lemma ScanBlocks(d: Decoder, bs: seq<Block>, none: bytes)
    requires d.command == 5 && Terminated(bs) && (forall x | x in bs :: x.Fits()) && |none| == 0
    ensures Scan(d, EncodeAll(bs)) == Finished(bs[|bs| - 1].command) && ScanOut(d, EncodeAll(bs)) == Contents(bs)
  {
    ScanTerminated(d, bs, none);
    assert EncodeAll(bs) + none == EncodeAll(bs) && Contents(bs) + none == Contents(bs);
  }

  lemma BlocksLength(bs: seq<Block>)
    requires bs != [] && forall x | x in bs :: x.Fits()
    ensures |EncodeAll(bs)| >= HEADER_LEN
  {
  }

  lemma TwoBuffers(uuid: bytes, d: Decoder, code: bytes, tail: bytes)
    requires |uuid| == UUID_LEN && |code| >= HEADER_LEN && d == START.(command := 5)
    ensures var bufs := [uuid + code, tail];
            && Flatten(bufs) == uuid + (code + tail)
            && FeedAllOut(uuid, START, bufs) == ScanOut(d, code) + FeedOut(uuid, Scan(d, code), tail)
  {
    var bufs := [uuid + code, tail];
    assert bufs[1..] == [tail];
    SingleBuffer(uuid, Scan(d, code), tail);
    Assoc(uuid, code, tail);
    assert bufs[0][UUID_LEN..] == code && bufs[0][..UUID_LEN] == uuid;
    FirstFeed(uuid, bufs);
  }

  lemma SingleBuffer(uuid: bytes, d: Decoder, s: bytes)
    ensures FeedAllOut(uuid, d, [s]) == FeedOut(uuid, d, s) && Flatten([s]) == s
  {
    assert |[s][1..]| == 0;
    assert FeedOut(uuid, d, s) + [] == FeedOut(uuid, d, s) && s + [] == s;
  }

  /**
   * A stream that fails, for every user id: an empty End block, and then raw bytes that are the id
   * and five zeros. These are taken for a new padded stream, and nothing of them comes out.
   */
  lemma RestartSwallows(uuid: bytes, bs: seq<Block>, tail: bytes)
    requires |uuid| == UUID_LEN && tail == uuid + [0, 0, 0, 0, 0]
    requires |bs| == 1 && bs[0].command == END && |bs[0].content| == 0 && |bs[0].padding| == 0
    ensures Terminated(bs) && forall x | x in bs :: x.Fits()
    ensures var bufs := [uuid + EncodeAll(bs), tail];
            Flatten(bufs) == uuid + (EncodeAll(bs) + tail) && FeedAllOut(uuid, START, bufs) == []
  {
    var zeros := tail[UUID_LEN..];
    assert |bs[..0]| == 0 && |bs[1..]| == 0;
    assert tail[..UUID_LEN] == uuid && zeros == [0, 0, 0, 0, 0];
    RestartOutput(uuid, bs, tail);
    ScanFive(Finished(END).(command := 5), 0, 0, 0, 0, 0);
  }

  /** A recognised stream, cut anywhere after its first header, decodes as its body scans. */
  lemma FeedStream(uuid: bytes, body: bytes, bufs: seq<bytes>)
    requires |uuid| == UUID_LEN
    requires bufs != [] && |bufs[0]| >= UUID_LEN + HEADER_LEN
    requires Flatten(bufs) == uuid + body
    ensures var after := Feed(uuid, START, bufs[0]);
            var d := START.(command := 5);
            && (NoRestart(uuid, after, bufs[1..]) <==> FeedAllOut(uuid, START, bufs) == ScanOut(d, body))
            && (NoRestart(uuid, after, bufs[1..]) ==> FeedAll(uuid, START, bufs) == Scan(d, body))
            && after == Scan(d, bufs[0][UUID_LEN..])
            && body == bufs[0][UUID_LEN..] + Flatten(bufs[1..])
  {
    var d := START.(command := 5);
    var h := bufs[0][UUID_LEN..];
    FirstBuffer(uuid, body, bufs);
    FirstFeed(uuid, bufs);
    FeedAllIsScan(uuid, Scan(d, h), bufs[1..]);
    ScanConcat(d, h, Flatten(bufs[1..]));
    CancelLeft(ScanOut(d, h), FeedAllOut(uuid, Scan(d, h), bufs[1..]), ScanOut(Scan(d, h), Flatten(bufs[1..])));
  }

  /** The same without a terminating block: whatever has arrived has been decoded. */
  lemma UnpaddingOpen(uuid: bytes, bs: seq<Block>, bufs: seq<bytes>)
    requires |uuid| == UUID_LEN && bs != [] && Open(bs)
    requires bufs != [] && |bufs[0]| >= UUID_LEN + HEADER_LEN
    requires Flatten(bufs) == uuid + EncodeAll(bs)
    ensures FeedAll(uuid, START, bufs) == AT_HEADER
    ensures FeedAllOut(uuid, START, bufs) == Contents(bs)
  {
    var d := START.(command := 5);
    var h := bufs[0][UUID_LEN..];
    FeedStream(uuid, EncodeAll(bs), bufs);
    ScanOpen(d, bs);
    ScanConcat(d, h, Flatten(bufs[1..]));
    BusyNeverRestarts(uuid, Scan(d, h), bufs[1..]);
  }

  lemma {:induction false} BusyNeverRestarts(uuid: bytes, d: Decoder, bufs: seq<bytes>)
    requires !Scan(d, Flatten(bufs)).Idle()
    ensures NoRestart(uuid, d, bufs)
    decreases |bufs|
  {
    if bufs != [] {
      ScanConcat(d, bufs[0], Flatten(bufs[1..]));
      BusyNeverRestarts(uuid, Scan(d, bufs[0]), bufs[1..]);
    }
  }

  lemma FirstBuffer(uuid: bytes, body: bytes, bufs: seq<bytes>)
    requires |uuid| == UUID_LEN
    requires bufs != [] && |bufs[0]| >= UUID_LEN + HEADER_LEN
    requires Flatten(bufs) == uuid + body
    ensures Recognised(uuid, bufs[0])
    ensures bufs[0][UUID_LEN..] + Flatten(bufs[1..]) == body
  {
    assert Flatten(bufs) == bufs[0] + Flatten(bufs[1..]);
    assert bufs[0][..UUID_LEN] == Flatten(bufs)[..UUID_LEN] == uuid;
    assert Flatten(bufs)[UUID_LEN..] == body;
  }

  lemma FirstFeed(uuid: bytes, bufs: seq<bytes>)
    requires bufs != [] && Recognised(uuid, bufs[0])
    ensures var d := START.(command := 5);
            var h := bufs[0][UUID_LEN..];
            && Feed(uuid, START, bufs[0]) == Scan(d, h)
            && FeedAll(uuid, START, bufs) == FeedAll(uuid, Scan(d, h), bufs[1..])
            && FeedAllOut(uuid, START, bufs) == ScanOut(d, h) + FeedAllOut(uuid, Scan(d, h), bufs[1..])
  {
  }

  /** A stream none of whose buffers looks like a padded start passes through unchanged. */
  lemma {:induction false} UnrecognisedPassesThrough(uuid: bytes, d: Decoder, bufs: seq<bytes>)
    requires d.Idle()
    requires forall i :: 0 <= i < |bufs| ==> !Recognised(uuid, bufs[i])
    ensures FeedAll(uuid, d, bufs) == d
    ensures FeedAllOut(uuid, d, bufs) == Flatten(bufs)
    decreases |bufs|
  {
    if bufs != [] {
      forall i | 0 <= i < |bufs[1..]| ensures !Recognised(uuid, bufs[1..][i]) {
        assert bufs[1..][i] == bufs[i + 1];
      }
      UnrecognisedPassesThrough(uuid, d, bufs[1..]);
    }
  }
}
