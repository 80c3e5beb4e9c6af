/**
 * The receiving half of Vision: the mode switches of VisionReader over any run of reads.
 *
 * `filtering` stands for NumberOfPacketToFilter > 0 at the time of a read; it is shared with the
 * other direction, so it is an input here. It only ever falls.
 */
module VisionReading {
  import opened Bytes
  import opened VisionCodec

  /** The reader link state of one direction. */
  datatype ReadSide = ReadSide(dec: Decoder, within: bool, direct: bool)

  const FRESH_SIDE := ReadSide(START, true, false)

  datatype Read = Read(filtering: bool, bufs: seq<bytes>)

  predicate Decoding(side: ReadSide, r: Read) {
    !side.direct && (side.within || r.filtering)
  }

  /** The mode test after a decoded read; it does not look at the remaining command bytes. */
  function ModeTest(side: ReadSide): ReadSide {
    if side.dec.content > 0 || side.dec.padding > 0 || side.dec.current == 0 then side.(within := true)
    else if side.dec.current == END then side.(within := false)
    else if side.dec.current == DIRECT then side.(within := false, direct := true)
    else side
  }

  function ReadNext(uuid: bytes, side: ReadSide, r: Read): ReadSide {
    if Decoding(side, r) then ModeTest(side.(dec := FeedAll(uuid, side.dec, r.bufs))) else side
  }

  function ReadOut(uuid: bytes, side: ReadSide, r: Read): bytes {
    if Decoding(side, r) then FeedAllOut(uuid, side.dec, r.bufs) else Flatten(r.bufs)
  }

  function RunReads(uuid: bytes, side: ReadSide, run: seq<Read>): ReadSide
    decreases |run|
  {
    if run == [] then side else RunReads(uuid, ReadNext(uuid, side, run[0]), run[1..])
  }

  function Delivered(uuid: bytes, side: ReadSide, run: seq<Read>): bytes
    decreases |run|
  {
    if run == [] then []
    else ReadOut(uuid, side, run[0]) + Delivered(uuid, ReadNext(uuid, side, run[0]), run[1..])
  }

  /** The bytes of all reads, in order. */
  function Arrived(run: seq<Read>): bytes {
    if run == [] then [] else Flatten(run[0].bufs) + Arrived(run[1..])
  }

  // ---------------------------------------------------------------------------------------------
  // When the mode test is wrong
  // ---------------------------------------------------------------------------------------------

  /** A read stopped inside the header of a terminating block, before any nonzero length byte. */
  predicate Premature(d: Decoder) {
    d.command > 0 && d.current != 0 && d.content <= 0 && d.padding <= 0
  }

  /** A premature exit that the next read does not repair. */
  predicate Broken(d: Decoder, nextFiltering: bool) {
    Premature(d) && (d.current == DIRECT || (d.current == END && !nextFiltering))
  }

  /** No read boundary before the last read is broken. */
  predicate Unbroken(d: Decoder, run: seq<Read>)
    decreases |run|
  {
    |run| > 1 ==>
      var d1 := Scan(d, Flatten(run[0].bufs));
      !Broken(d1, run[1].filtering) && Unbroken(d1, run[1..])
  }

  /** Reads carry content, and filtering never starts again. */
  predicate WellTimed(run: seq<Read>) {
    && (forall i :: 0 <= i < |run| ==> Flatten(run[i].bufs) != [])
    && (forall i, j :: 0 <= i < j < |run| && run[j].filtering ==> run[i].filtering)
  }

  /** No stale command is left in front of a header. */
  predicate Clean(d: Decoder) {
    d.command == 5 ==> d.current == 0
  }

  predicate Ended(d: Decoder) {
    d.Idle() && (d.current == END || d.current == DIRECT)
  }

  /** Between blocks: after a terminating block, or in front of a header. */
  predicate Settled(d: Decoder) {
    Ended(d) || d == AT_HEADER
  }

  /** The commands the writer uses. */
  predicate Known(d: Decoder) {
    0 <= d.current <= 2
  }

  /** The reader is in the mode that the decoded stream calls for. */
  predicate Sync(side: ReadSide, d: Decoder, nextFiltering: bool) {
    && side.dec == d
    && (if Ended(d) then !side.within && side.direct == (d.current == DIRECT)
        else !side.direct && (side.within || nextFiltering))
  }

  /**
   * One decoded read: the mode after it is right exactly when the read did not stop prematurely.
   */
  lemma ModeTestExact(side: ReadSide, d: Decoder, nextFiltering: bool)
    requires d.Valid() && Known(d) && !side.direct
    ensures Sync(ModeTest(side.(dec := d)), d, nextFiltering) <==> !Broken(d, nextFiltering)
    ensures Broken(d, nextFiltering) ==>
              var s := ModeTest(side.(dec := d));
              s.direct || (!s.within && !nextFiltering)
  {
  }

  /** A reader in the right mode decodes the next read: padding is open, or filtering goes on after End. */
  predicate Decodes(d: Decoder, filtering: bool) {
    !Ended(d) || (d.current == END && filtering)
  }

  /** In no read that is decoded a buffer behind the last block looks like a fresh stream. */
  ghost predicate Steady(uuid: bytes, d: Decoder, run: seq<Read>)
    decreases |run|
  {
    run != [] ==>
      && (Decodes(d, run[0].filtering) ==> NoRestart(uuid, d, run[0].bufs))
      && Steady(uuid, Scan(d, Flatten(run[0].bufs)), run[1..])
  }

  /** Such a buffer loses bytes that should come out as they are. */
  lemma {:induction false} RestartShortens(uuid: bytes, d: Decoder, bufs: seq<bytes>)
    requires !NoRestart(uuid, d, bufs)
    ensures Scan(d, Flatten(bufs)).Idle() && |FeedAllOut(uuid, d, bufs)| < |ScanOut(d, Flatten(bufs))|
    decreases |bufs|
  {
    var rest := Flatten(bufs[1..]);
    ScanConcat(d, bufs[0], rest);
    if !(d.Idle() && Recognised(uuid, bufs[0])) {
      RestartShortens(uuid, Scan(d, bufs[0]), bufs[1..]);
    }
  }

  lemma {:induction false} DeliveredAtMost(uuid: bytes, side: ReadSide, run: seq<Read>)
    ensures |Delivered(uuid, side, run)| <= |Arrived(run)|
    decreases |run|
  {
    if run != [] {
      DeliveredAtMost(uuid, ReadNext(uuid, side, run[0]), run[1..]);
    }
  }

  /** A reader stuck in copying leaks the rest of a header, so it delivers too much. */
  lemma {:induction false} CopyingLeaks(uuid: bytes, side: ReadSide, run: seq<Read>)
    requires WellTimed(run)
    requires side.direct || (!side.within && forall i :: 0 <= i < |run| ==> !run[i].filtering)
    ensures Delivered(uuid, side, run) == Arrived(run)
    decreases |run|
  {
    if run != [] {
      TimedTail(run);
      CopyingLeaks(uuid, side, run[1..]);
    }
  }

  lemma TimedTail(run: seq<Read>)
    requires WellTimed(run) && run != []
    ensures WellTimed(run[1..])
    ensures forall i :: 0 <= i < |run[1..]| && !run[0].filtering ==> !run[1..][i].filtering
  {
    forall i | 0 <= i < |run[1..]| ensures run[1..][i] == run[i + 1] {}
  }

  lemma HeaderSwallows(d: Decoder, s: bytes)
    requires d.command > 0 && s != []
    ensures |ScanOut(d, s)| < |s|
  {
  }

  /** The command of a block survives until the block is over, so a known end means a known block. */
  lemma {:induction false} StillKnown(d: Decoder, s: bytes)
    requires d.Valid() && Clean(d)
    requires Settled(Scan(d, s))
    ensures Known(d) && (d.Idle() ==> Ended(d))
    decreases |s|
  {
    if !d.Idle() && s != [] && d.command < 5 {
      var n := Next(d, s[0]);
      assert n.Valid() && Clean(n);
      StillKnown(n, s[1..]);
    }
  }

  lemma {:induction false} ScanClean(d: Decoder, s: bytes)
    requires d.Valid() && Clean(d)
    ensures Scan(d, s).Valid() && Clean(Scan(d, s))
    decreases |s|
  {
    if !d.Idle() && s != [] {
      ScanClean(Next(d, s[0]), s[1..]);
    }
  }

  /** The decoder after the bytes a of the stream a + b. */
  lemma Boundary(d: Decoder, a: bytes, b: bytes)
    requires d.Valid() && Clean(d) && Settled(Scan(d, a + b))
    ensures var d1 := Scan(d, a);
            && d1.Valid() && Clean(d1) && Known(d1) && (d1.Idle() ==> Ended(d1))
            && Scan(d, a + b) == Scan(d1, b) && ScanOut(d, a + b) == ScanOut(d, a) + ScanOut(d1, b)
  {
    ScanConcat(d, a, b);
    ScanClean(d, a);
    StillKnown(Scan(d, a), b);
  }

  /** A broken boundary makes the rest of the run too long. */
  lemma BrokenLeaks(uuid: bytes, side: ReadSide, d: Decoder, run: seq<Read>)
    requires WellTimed(run) && run != [] && d.command > 0
    requires side.direct || (!side.within && !run[0].filtering)
    ensures |Delivered(uuid, side, run)| > |ScanOut(d, Arrived(run))|
  {
    CopyingLeaks(uuid, side, run);
    HeaderSwallows(d, Arrived(run));
  }

  /** One read of a synchronised reader. */
  lemma OneRead(uuid: bytes, side: ReadSide, d: Decoder, r: Read)
    requires d.Valid() && Sync(side, d, r.filtering) && (d.Idle() ==> Ended(d))
    requires Decodes(d, r.filtering) ==> NoRestart(uuid, d, r.bufs)
    requires var d1 := Scan(d, Flatten(r.bufs)); d1.Valid() && Known(d1) && (d1.Idle() ==> Ended(d1))
    ensures ReadOut(uuid, side, r) == ScanOut(d, Flatten(r.bufs))
    ensures var d1, side1 := Scan(d, Flatten(r.bufs)), ReadNext(uuid, side, r);
            forall nf :: if Broken(d1, nf) then side1.direct || (!side1.within && !nf) else Sync(side1, d1, nf)
  {
    if Decodes(d, r.filtering) {
      FeedAllIsScan(uuid, d, r.bufs);
      var d1 := Scan(d, Flatten(r.bufs));
      ModeTestExact(side, d1, true);
      ModeTestExact(side, d1, false);
    }
  }

  /** A read that restarts, in the right mode: less comes out than should, and for good. */
  lemma RestartLoses(uuid: bytes, side: ReadSide, d: Decoder, run: seq<Read>)
    requires run != [] && Sync(side, d, run[0].filtering) && (d.Idle() ==> Ended(d))
    requires Decodes(d, run[0].filtering) && !NoRestart(uuid, d, run[0].bufs)
    ensures |Delivered(uuid, side, run)| < |ScanOut(d, Arrived(run))|
  {
    var bytes0, rest := Flatten(run[0].bufs), run[1..];
    RestartShortens(uuid, d, run[0].bufs);
    DeliveredAtMost(uuid, ReadNext(uuid, side, run[0]), rest);
    ScanConcat(d, bytes0, Arrived(rest));
  }

  /** From a synchronised reader on: right output exactly if no boundary is broken and nothing restarts. */
  lemma {:induction false} ReaderExact(uuid: bytes, side: ReadSide, d: Decoder, run: seq<Read>)
    requires run != [] && WellTimed(run)
    requires d.Valid() && Clean(d) && (d.Idle() ==> Ended(d))
    requires Sync(side, d, run[0].filtering) && Settled(Scan(d, Arrived(run)))
    ensures Delivered(uuid, side, run) == ScanOut(d, Arrived(run)) <==> Unbroken(d, run) && Steady(uuid, d, run)
    ensures Unbroken(d, run) && Steady(uuid, d, run) ==>
              Sync(RunReads(uuid, side, run), Scan(d, Arrived(run)), false)
    decreases |run|
  {
    var r, rest := run[0], run[1..];
    var d1, side1 := Scan(d, Flatten(r.bufs)), ReadNext(uuid, side, r);
    Boundary(d, Flatten(r.bufs), Arrived(rest));
    TimedTail(run);
    if Decodes(d, r.filtering) && !NoRestart(uuid, d, r.bufs) {
      RestartLoses(uuid, side, d, run);
    } else {
      OneRead(uuid, side, d, r);
      CancelLeft(ReadOut(uuid, side, r), Delivered(uuid, side1, rest), ScanOut(d1, Arrived(rest)));
      if rest == [] {
        assert !Broken(d1, false);
      } else if Broken(d1, rest[0].filtering) {
        BrokenLeaks(uuid, side1, d1, rest);
      } else {
        ReaderExact(uuid, side1, d1, rest);
      }
    }
  }

  /** No read stops prematurely. */
  predicate NeverPremature(d: Decoder, run: seq<Read>)
    decreases |run|
  {
    run != [] ==>
      var d1 := Scan(d, Flatten(run[0].bufs));
      !Premature(d1) && NeverPremature(d1, run[1..])
  }

  /** In padding mode until the terminating block is over, then copying, directly after Direct. */
  predicate RightMode(side: ReadSide, d: Decoder) {
    && side.dec == d
    && side.within == !Ended(d)
    && side.direct == (Ended(d) && d.current == DIRECT)
  }

  /** The mode is right after every read. */
  predicate ModesRight(uuid: bytes, side: ReadSide, d: Decoder, run: seq<Read>)
    decreases |run|
  {
    run != [] ==>
      var d1, side1 := Scan(d, Flatten(run[0].bufs)), ReadNext(uuid, side, run[0]);
      RightMode(side1, d1) && ModesRight(uuid, side1, d1, run[1..])
  }

  /** Padding mode is left in exactly the read that ends the last block, iff no read is premature. */
  lemma {:induction false} ModesExact(uuid: bytes, side: ReadSide, d: Decoder, run: seq<Read>)
    requires d.Valid() && Clean(d) && (d.Idle() ==> Ended(d))
    requires RightMode(side, d) && Settled(Scan(d, Arrived(run))) && Steady(uuid, d, run)
    ensures ModesRight(uuid, side, d, run) <==> NeverPremature(d, run)
    decreases |run|
  {
    if run != [] {
      var r, rest := run[0], run[1..];
      var d1, side1 := Scan(d, Flatten(r.bufs)), ReadNext(uuid, side, r);
      Boundary(d, Flatten(r.bufs), Arrived(rest));
      OneRead(uuid, side, d, r);
      OneMode(uuid, side, d, r);
      if !Premature(d1) {
        ModesExact(uuid, side1, d1, rest);
      }
    }
  }

  lemma OneMode(uuid: bytes, side: ReadSide, d: Decoder, r: Read)
    requires d.Valid() && RightMode(side, d) && (d.Idle() ==> Ended(d))
    requires Decodes(d, r.filtering) ==> NoRestart(uuid, d, r.bufs)
    requires var d1 := Scan(d, Flatten(r.bufs)); d1.Valid() && Known(d1) && (d1.Idle() ==> Ended(d1))
    ensures RightMode(ReadNext(uuid, side, r), Scan(d, Flatten(r.bufs))) <==> !Premature(Scan(d, Flatten(r.bufs)))
  {
    if Decodes(d, r.filtering) {
      FeedAllIsScan(uuid, d, r.bufs);
    }
  }

  // ---------------------------------------------------------------------------------------------
  // Whole runs, from the first read of a connection
  // ---------------------------------------------------------------------------------------------

  /** The decoder and the reader behind the user id. */
  const BEGUN := START.(command := 5)
  const BEGUN_SIDE := ReadSide(BEGUN, true, false)

  /** The first buffer of the run holds the user id and at least one header. */
  predicate Opens(run: seq<Read>) {
    run != [] && run[0].bufs != [] && |run[0].bufs[0]| >= UUID_LEN + HEADER_LEN
  }

  /** The run with the user id cut off the first buffer. */
  function Stripped(run: seq<Read>): seq<Read>
    requires Opens(run)
  {
    var first := run[0].bufs;
    [run[0].(bufs := [first[0][UUID_LEN..]] + first[1..])] + run[1..]
  }

  /** Without the user id the reader does the same as if it expected a header. */
  lemma StripReads(uuid: bytes, body: bytes, run: seq<Read>)
    requires |uuid| == UUID_LEN && Opens(run) && Arrived(run) == uuid + body
    ensures var cut := Stripped(run);
            && Arrived(cut) == body && (WellTimed(run) ==> WellTimed(cut))
            && Delivered(uuid, BEGUN_SIDE, cut) == Delivered(uuid, FRESH_SIDE, run)
            && RunReads(uuid, BEGUN_SIDE, cut) == RunReads(uuid, FRESH_SIDE, run)
  {
    var cut, first := Stripped(run), run[0].bufs;
    assert cut[1..] == run[1..];
    StripBytes(uuid, body, first, Arrived(run[1..]));
    StripBuffers(uuid, first);
    if WellTimed(run) {
      StripTimed(run, cut);
    }
  }

  lemma StripBytes(uuid: bytes, body: bytes, bufs: seq<bytes>, rest: bytes)
    requires |uuid| == UUID_LEN && bufs != [] && |bufs[0]| >= UUID_LEN + HEADER_LEN
    requires Flatten(bufs) + rest == uuid + body
    ensures Recognised(uuid, bufs[0])
    ensures var cut := [bufs[0][UUID_LEN..]] + bufs[1..]; Flatten(cut) + rest == body && Flatten(cut) != []
  {
    var b, more := bufs[0], Flatten(bufs[1..]);
    var cut := [b[UUID_LEN..]] + bufs[1..];
    assert cut[1..] == bufs[1..];
    assert b == b[..UUID_LEN] + b[UUID_LEN..];
    Assoc(b[..UUID_LEN], b[UUID_LEN..], more);
    Assoc(b[..UUID_LEN], b[UUID_LEN..] + more, rest);
    SplitEqual(b[..UUID_LEN], (b[UUID_LEN..] + more) + rest, uuid, body);
  }

  /** The first buffer decodes as if the user id were not there and a header were expected. */
  lemma StripBuffers(uuid: bytes, bufs: seq<bytes>)
    requires bufs != [] && Recognised(uuid, bufs[0])
    ensures var cut := [bufs[0][UUID_LEN..]] + bufs[1..];
            && FeedAll(uuid, BEGUN, cut) == FeedAll(uuid, START, bufs)
            && FeedAllOut(uuid, BEGUN, cut) == FeedAllOut(uuid, START, bufs)
  {
    var cut := [bufs[0][UUID_LEN..]] + bufs[1..];
    assert cut[1..] == bufs[1..];
  }

  lemma StripTimed(run: seq<Read>, cut: seq<Read>)
    requires run != [] && WellTimed(run)
    requires cut != [] && cut[1..] == run[1..] && cut[0].filtering == run[0].filtering
    requires Flatten(cut[0].bufs) != []
    ensures WellTimed(cut)
  {
    forall i | 1 <= i < |cut| ensures cut[i] == run[i] {
      assert cut[1..][i - 1] == cut[i] && run[1..][i - 1] == run[i];
    }
  }

  /**
   * VisionReader over every run of reads of a terminated stream. What it delivers is exactly the
   * contents and the raw tail if and only if no read boundary is broken and nothing restarts. A
   * boundary is broken if a read stopped inside the header of the terminating block, with all length
   * bytes seen so far zero, in front of a read that does not decode. Something restarts if a buffer
   * behind the last block looks like a fresh stream, in a read that is still decoded. Otherwise the
   * reader has left padding mode, for direct copy exactly when the terminating command was Direct.
   * If nothing restarts, the mode is right after every single read, so that padding mode ends with
   * the read of the last padding byte, if and only if no read is premature.
   */
  lemma VisionReaderRun(uuid: bytes, bs: seq<Block>, tail: bytes, run: seq<Read>)
    requires |uuid| == UUID_LEN
    requires Terminated(bs) && (forall x | x in bs :: x.Fits())
    requires bs[|bs| - 1].command == END || bs[|bs| - 1].command == DIRECT
    requires Opens(run) && WellTimed(run) && Arrived(run) == uuid + (EncodeAll(bs) + tail)
    ensures var cut := Stripped(run); var right := Unbroken(BEGUN, cut) && Steady(uuid, BEGUN, cut);
            && (Delivered(uuid, FRESH_SIDE, run) == Contents(bs) + tail <==> right)
            && (right ==>
                  && !RunReads(uuid, FRESH_SIDE, run).within
                  && (RunReads(uuid, FRESH_SIDE, run).direct <==> bs[|bs| - 1].command == DIRECT))
            && (Steady(uuid, BEGUN, cut) ==>
                  (ModesRight(uuid, BEGUN_SIDE, BEGUN, cut) <==> NeverPremature(BEGUN, cut)))
  {
    var cut := Stripped(run);
    StripReads(uuid, EncodeAll(bs) + tail, run);
    ScanTerminated(BEGUN, bs, tail);
    ReaderExact(uuid, BEGUN_SIDE, BEGUN, cut);
    if Steady(uuid, BEGUN, cut) {
      ModesExact(uuid, BEGUN_SIDE, BEGUN, cut);
    }
  }

  // ---------------------------------------------------------------------------------------------
  // Broken boundaries by position in the stream
  // ---------------------------------------------------------------------------------------------

  /** Where the header of the last block starts in the encoded blocks. */
  function LastHeader(bs: seq<Block>): nat
    requires bs != [] && forall x | x in bs :: x.Fits()
  {
    |EncodeAll(bs[..|bs| - 1])|
  }

  /** Position p is strictly inside the header of the last block, and no length byte before it is nonzero. */
  predicate InsideLastHeader(bs: seq<Block>, p: int)
    requires bs != [] && forall x | x in bs :: x.Fits()
  {
    var at, h := LastHeader(bs), Header(bs[|bs| - 1]);
    at < p < at + HEADER_LEN && forall k :: 1 <= k < p - at ==> h[k] == 0
  }

  /** The command of a block in progress stays. */
  lemma {:induction false} CommandStays(d: Decoder, s: bytes)
    requires d.command < 5 && d.current != 0
    ensures Scan(d, s).current == d.current && Scan(d, s).command < 5
    decreases |s|
  {
    if !d.Idle() && s != [] {
      CommandStays(Next(d, s[0]), s[1..]);
    }
  }

  /** A header read up to its byte k. */
  lemma HeaderPremature(d: Decoder, h: bytes, k: nat)
    requires d.command == 5 && d.content <= 0 && d.padding <= 0 && |h| == HEADER_LEN && h[0] != 0 && 0 < k < HEADER_LEN
    ensures Premature(Scan(d, h[..k])) <==> forall i :: 1 <= i < k ==> h[i] == 0
    ensures Scan(d, h[..k]).current == h[0]
  {
    var d1 := Next(d, h[0]);
    ScanPrefix(d, h, 1);
    assert h[..0] == [];
    if k > 1 {
      ScanPrefix(d, h, 2);
    }
    if k > 2 {
      ScanPrefix(d, h, 3);
    }
    if k > 3 {
      ScanPrefix(d, h, 4);
    }
  }

  lemma ScanPrefix(d: Decoder, h: bytes, k: nat)
    requires 0 < k <= |h|
    ensures var d1 := Scan(d, h[..k - 1]); Scan(d, h[..k]) == if d1.Idle() then d1 else Next(d1, h[k - 1])
  {
    var d1 := Scan(d, h[..k - 1]);
    assert h[..k] == h[..k - 1] + [h[k - 1]];
    ScanConcat(d, h[..k - 1], [h[k - 1]]);
    assert [h[k - 1]][1..] == [];
  }

  lemma {:induction false} NoMoreHeader(d: Decoder, s: bytes)
    requires d.command <= 0 && d.current != 0
    ensures Scan(d, s).command <= 0
    decreases |s|
  {
    if !d.Idle() && s != [] {
      NoMoreHeader(Next(d, s[0]), s[1..]);
    }
  }

  /** Inside the Continue blocks no read is premature. */
  lemma OpenNotPremature(d: Decoder, s: bytes, p: nat)
    requires d.Valid() && Clean(d) && p <= |s| && Scan(d, s).command == 5
    ensures !Premature(Scan(d, s[..p]))
  {
    var d1 := Scan(d, s[..p]);
    assert s == s[..p] + s[p..];
    ScanConcat(d, s[..p], s[p..]);
    ScanClean(d, s[..p]);
    if Premature(d1) {
      CommandStays(d1, s[p..]);
    }
  }

  /** Premature, said by position: strictly inside the header of the last block, behind zero lengths. */
  lemma PrematureAt(bs: seq<Block>, tail: bytes, p: nat)
    requires Terminated(bs) && (forall x | x in bs :: x.Fits())
    requires p <= |EncodeAll(bs) + tail|
    ensures var d := Scan(BEGUN, (EncodeAll(bs) + tail)[..p]);
            && (Premature(d) <==> InsideLastHeader(bs, p))
            && (Premature(d) ==> d.current == bs[|bs| - 1].command)
  {
    var d, n := BEGUN, |bs| - 1;
    var front, last := bs[..n], bs[n];
    var a, h, body := EncodeAll(front), Header(last), last.content + last.padding;
    assert bs == front + [last];
    EncodeAllSnoc(front, last);
    assert Encode(last) == h + body;
    ScanOpen(d, front);
    BodyPremature(d, a, h, body + tail, p, last);
    assert EncodeAll(bs) + tail == a + (h + (body + tail)) by {
      Assoc(a, h + body, tail);
      Assoc(h, body, tail);
    }
  }

  lemma BodyPremature(d: Decoder, a: bytes, h: bytes, rest: bytes, p: nat, last: Block)
    requires d == BEGUN && last.Fits() && last.command != CONTINUE && h == Header(last)
    requires Scan(d, a) == d || Scan(d, a) == AT_HEADER
    requires p <= |a + (h + rest)|
    ensures var d1 := Scan(d, (a + (h + rest))[..p]);
            && (Premature(d1) <==> |a| < p < |a| + HEADER_LEN && forall k :: 1 <= k < p - |a| ==> h[k] == 0)
            && (Premature(d1) ==> d1.current == last.command)
  {
    var s, d1 := a + (h + rest), Scan(d, a);
    if p <= |a| {
      assert s[..p] == a[..p];
      OpenNotPremature(d, a, p);
    } else if p < |a| + HEADER_LEN {
      var k := p - |a|;
      assert s[..p] == a + h[..k];
      ScanConcat(d, a, h[..k]);
      HeaderPremature(d1, h, k);
    } else {
      var more := rest[..p - |a| - HEADER_LEN];
      assert s[..p] == a + (h + more);
      ScanConcat(d, a, h + more);
      ScanConcat(d1, h, more);
      ScanHeader(d1, last);
      NoMoreHeader(AfterHeader(last), more);
    }
  }

  /** How many bytes the first i reads hold, and the decoder after them. */
  function Position(run: seq<Read>, i: nat): nat
    requires i <= |run|
  {
    |Arrived(run[..i])|
  }

  function After(d: Decoder, run: seq<Read>, i: nat): Decoder
    requires i <= |run|
  {
    Scan(d, Arrived(run[..i]))
  }

  lemma AfterShift(d: Decoder, run: seq<Read>, i: nat)
    requires i < |run|
    ensures After(Scan(d, Flatten(run[0].bufs)), run[1..], i) == After(d, run, i + 1)
  {
    assert run[..i + 1][1..] == run[1..][..i];
    ScanConcat(d, Flatten(run[0].bufs), Arrived(run[1..][..i]));
  }

  lemma AfterFirst(d: Decoder, run: seq<Read>)
    requires run != []
    ensures After(d, run, 1) == Scan(d, Flatten(run[0].bufs))
  {
    var one := run[..1];
    assert |one[1..]| == 0;
    assert Arrived(one) == Flatten(one[0].bufs) + Arrived(one[1..]) == Flatten(run[0].bufs);
  }

  /** Unbroken, boundary by boundary. */
  lemma {:induction false} UnbrokenAt(d: Decoder, run: seq<Read>)
    ensures Unbroken(d, run) <==> forall i :: 0 < i < |run| ==> !Broken(After(d, run, i), run[i].filtering)
    decreases |run|
  {
    if |run| > 1 {
      var d1, rest := Scan(d, Flatten(run[0].bufs)), run[1..];
      UnbrokenAt(d1, rest);
      AfterFirst(d, run);
      forall i | 0 < i < |rest|
        ensures After(d1, rest, i) == After(d, run, i + 1) && rest[i] == run[i + 1]
      {
        AfterShift(d, run, i);
      }
      forall i | 1 < i < |run| ensures After(d, run, i) == After(d1, rest, i - 1) {
        AfterShift(d, run, i - 1);
      }
    }
  }

  /** NeverPremature, read by read. */
  lemma {:induction false} NeverPrematureAt(d: Decoder, run: seq<Read>)
    ensures NeverPremature(d, run) <==> forall i :: 0 < i <= |run| ==> !Premature(After(d, run, i))
    decreases |run|
  {
    if run != [] {
      var d1, rest := Scan(d, Flatten(run[0].bufs)), run[1..];
      NeverPrematureAt(d1, rest);
      AfterFirst(d, run);
      forall i | 0 < i <= |rest| ensures After(d1, rest, i) == After(d, run, i + 1) {
        AfterShift(d, run, i);
      }
      forall i | 1 < i <= |run| ensures After(d, run, i) == After(d1, rest, i - 1) {
        AfterShift(d, run, i - 1);
      }
    }
  }

  /** Steady, read by read: no buffer that starts behind the last block, in a read that is decoded. */
  lemma {:induction false} SteadyAt(uuid: bytes, d: Decoder, run: seq<Read>)
    ensures Steady(uuid, d, run) <==> forall i :: 0 <= i < |run| ==> SteadyRead(uuid, After(d, run, i), run[i])
    decreases |run|
  {
    if run != [] {
      var d1, rest := Scan(d, Flatten(run[0].bufs)), run[1..];
      SteadyAt(uuid, d1, rest);
      assert After(d, run, 0) == d by {
        assert run[..0] == [];
      }
      NoRestartMeaning(uuid, d, run[0].bufs);
      forall i | 0 <= i < |rest| ensures After(d1, rest, i) == After(d, run, i + 1) && rest[i] == run[i + 1] {
        AfterShift(d, run, i);
      }
      forall i | 0 < i < |run| ensures After(d, run, i) == After(d1, rest, i - 1) {
        AfterShift(d, run, i - 1);
      }
    }
  }

  ghost predicate SteadyRead(uuid: bytes, d: Decoder, r: Read) {
    Decodes(d, r.filtering) ==>
      forall j: nat :: j < |r.bufs| && Late(d, r.bufs, j) ==> !Recognised(uuid, r.bufs[j])
  }

  lemma {:induction false} ArrivedPrefix(run: seq<Read>, i: nat)
    requires i <= |run|
    ensures Position(run, i) <= |Arrived(run)| && Arrived(run[..i]) == Arrived(run)[..Position(run, i)]
  {
    if i > 0 {
      ArrivedPrefix(run[1..], i - 1);
      assert run[..i][1..] == run[1..][..i - 1];
    }
  }

  /**
   * The two conditions of VisionReaderRun, said by position in the stream behind the user id. A read
   * boundary is broken if it lies strictly inside the five header bytes of the last block with no
   * nonzero length byte before it, unless that block is an End block and the next read is still
   * filtered. A read is premature if it ends there.
   */
  lemma BoundaryMeaning(bs: seq<Block>, tail: bytes, run: seq<Read>)
    requires Terminated(bs) && (forall x | x in bs :: x.Fits())
    requires bs[|bs| - 1].command == END || bs[|bs| - 1].command == DIRECT
    requires Arrived(run) == EncodeAll(bs) + tail
    ensures Unbroken(BEGUN, run) <==>
            forall i :: 0 < i < |run| && InsideLastHeader(bs, Position(run, i)) ==>
              bs[|bs| - 1].command == END && run[i].filtering
    ensures NeverPremature(BEGUN, run) <==>
            forall i :: 0 < i <= |run| ==> !InsideLastHeader(bs, Position(run, i))
  {
    UnbrokenAt(BEGUN, run);
    NeverPrematureAt(BEGUN, run);
    forall i | 0 < i <= |run|
      ensures Premature(After(BEGUN, run, i)) <==> InsideLastHeader(bs, Position(run, i))
      ensures Premature(After(BEGUN, run, i)) ==> After(BEGUN, run, i).current == bs[|bs| - 1].command
    {
      ArrivedPrefix(run, i);
      PrematureAt(bs, tail, Position(run, i));
    }
  }

  // ---------------------------------------------------------------------------------------------
  // While padding goes on
  // ---------------------------------------------------------------------------------------------

  /** As long as all blocks are Continue blocks, every run of reads delivers what they hold. */
  lemma VisionReaderOpen(uuid: bytes, bs: seq<Block>, run: seq<Read>)
    requires |uuid| == UUID_LEN && bs != [] && Open(bs)
    requires Opens(run) && WellTimed(run) && Arrived(run) == uuid + EncodeAll(bs)
    ensures Delivered(uuid, FRESH_SIDE, run) == Contents(bs)
    ensures RunReads(uuid, FRESH_SIDE, run) == ReadSide(AT_HEADER, true, false)
    ensures ModesRight(uuid, BEGUN_SIDE, BEGUN, Stripped(run))
  {
    var cut := Stripped(run);
    StripReads(uuid, EncodeAll(bs), run);
    ScanOpen(BEGUN, bs);
    OpenSteady(uuid, BEGUN, cut);
    OpenUnbroken(BEGUN, cut);
    ReaderExact(uuid, BEGUN_SIDE, BEGUN, cut);
    ModesExact(uuid, BEGUN_SIDE, BEGUN, cut);
    LastModeRight(uuid, BEGUN_SIDE, BEGUN, cut);
  }

  lemma {:induction false} OpenSteady(uuid: bytes, d: Decoder, run: seq<Read>)
    requires !Scan(d, Arrived(run)).Idle()
    ensures Steady(uuid, d, run)
    decreases |run|
  {
    if run != [] {
      var bytes0 := Flatten(run[0].bufs);
      ScanConcat(d, bytes0, Arrived(run[1..]));
      BusyNeverRestarts(uuid, d, run[0].bufs);
      OpenSteady(uuid, Scan(d, bytes0), run[1..]);
    }
  }

  lemma OpenUnbroken(d: Decoder, run: seq<Read>)
    requires d.Valid() && Clean(d) && Scan(d, Arrived(run)).command == 5
    ensures Unbroken(d, run) && NeverPremature(d, run)
  {
    UnbrokenAt(d, run);
    NeverPrematureAt(d, run);
    forall i | 0 < i <= |run| ensures !Premature(After(d, run, i)) {
      ArrivedPrefix(run, i);
      OpenNotPremature(d, Arrived(run), Position(run, i));
    }
  }

  lemma {:induction false} LastModeRight(uuid: bytes, side: ReadSide, d: Decoder, run: seq<Read>)
    requires run != [] && ModesRight(uuid, side, d, run)
    ensures RightMode(RunReads(uuid, side, run), Scan(d, Arrived(run)))
    decreases |run|
  {
    var d1, side1, rest := Scan(d, Flatten(run[0].bufs)), ReadNext(uuid, side, run[0]), run[1..];
    ScanConcat(d, Flatten(run[0].bufs), Arrived(rest));
    if rest != [] {
      LastModeRight(uuid, side1, d1, rest);
    }
  }

  // ---------------------------------------------------------------------------------------------
  // A run that fails
  // ---------------------------------------------------------------------------------------------

  /** A read that stops behind an End command makes the reader copy the next one. */
  lemma CopiesTooEarly(uuid: bytes, b: Block, first: bytes, more: bytes)
    requires |uuid| == UUID_LEN && b.Fits() && b.command == CONTINUE && first == Encode(b) + [END]
    ensures var run := [Read(true, [uuid + first]), Read(false, [more])];
            && Delivered(uuid, FRESH_SIDE, run) == b.content + more
            && Arrived(run) == uuid + (first + more)
  {
    var one, two := Read(true, [uuid + first]), Read(false, [more]);
    var d, stuck := BEGUN, Decoder(4, 0, 0, 1);
    ScanBlock(d, b);
    ScanConcat(d, Encode(b), [END]);
    StopsInHeader();
    assert b.content + [] == b.content;
    StopsIn(uuid, d, first, stuck, b.content);
    SingleBuffer(uuid, stuck, more);
    var run, side1 := [one, two], ReadSide(stuck, false, false);
    assert run[1..] == [two] && |[two][1..]| == 0;
    assert ReadNext(uuid, FRESH_SIDE, one) == side1;
    assert Delivered(uuid, side1, [two]) == more + Delivered(uuid, side1, [two][1..]) == more;
    TwoReads(uuid + first, more, run);
    Assoc(uuid, first, more);
  }

  lemma StopsInHeader()
    ensures Scan(AT_HEADER, [END]) == Decoder(4, 0, 0, 1) && ScanOut(AT_HEADER, [END]) == []
  {
    assert |[END][1..]| == 0;
  }

  lemma StopsIn(uuid: bytes, d: Decoder, first: bytes, d1: Decoder, out: bytes)
    requires |uuid| == UUID_LEN && |first| >= HEADER_LEN && d == BEGUN
    requires Scan(d, first) == d1 && ScanOut(d, first) == out
    ensures FeedAll(uuid, START, [uuid + first]) == d1 && FeedAllOut(uuid, START, [uuid + first]) == out
  {
    var bufs := [uuid + first];
    assert |bufs[1..]| == 0 && bufs[0][UUID_LEN..] == first && bufs[0][..UUID_LEN] == uuid;
    FirstFeed(uuid, bufs);
    assert out + [] == out;
  }

  lemma TwoReads(a: bytes, b: bytes, run: seq<Read>)
    requires |run| == 2 && run[0].bufs == [a] && run[1].bufs == [b]
    ensures Arrived(run) == a + b
  {
    assert |run[1..][1..]| == 0 && |[a][1..]| == 0 && |[b][1..]| == 0;
    assert Flatten([a]) == a + [] == a && Flatten([b]) == b + [] == b;
    assert Arrived(run[1..]) == b + Arrived(run[1..][1..]) == b;
  }

  /**
   * Runs that fail, for every user id: a Continue block and an End block arrive in two reads, cut
   * behind the second command byte, and filtering is over by the second. The reader passes the other
   * header bytes and the padding on as if they were content.
   */
  lemma SplitHeaderLeaks(uuid: bytes, a: Block, b: Block)
    requires |uuid| == UUID_LEN && a.Fits() && b.Fits() && a.command == CONTINUE && b.command == END
    ensures var bs := [a, b];
            && Terminated(bs) && (forall x | x in bs :: x.Fits())
            && var run := [Read(true, [uuid + (Encode(a) + [END])]), Read(false, [Encode(b)[1..]])];
            && Arrived(run) == uuid + EncodeAll(bs)
            && Delivered(uuid, FRESH_SIDE, run) == a.content + Encode(b)[1..]
            && |Delivered(uuid, FRESH_SIDE, run)| >= |Contents(bs)| + 4
  {
    var more := Encode(b)[1..];
    assert Encode(b) == [END] + more;
    CopiesTooEarly(uuid, a, Encode(a) + [END], more);
    TwoBlocks([a, b], a, b);
    Assoc(Encode(a), [END], more);
  }

  lemma TwoBlocks(bs: seq<Block>, a: Block, b: Block)
    requires bs == [a, b] && a.Fits() && b.Fits() && a.command == CONTINUE && b.command != CONTINUE
    ensures Terminated(bs) && (forall x | x in bs :: x.Fits())
    ensures Contents(bs) == a.content + b.content && EncodeAll(bs) == Encode(a) + Encode(b)
  {
    assert bs[..1] == [a] && bs[1..] == [b] && |[b][1..]| == 0;
    assert Contents([b]) == b.content + [] == b.content;
    assert EncodeAll([b]) == Encode(b) + [] == Encode(b);
  }
}
