/** Length-prefixed chunks over a byte stream (common/crypto/chunk.go) and buf.Copy. */
module Chunks {
  import opened Bytes
  import opened MultiBuffers

  const SLICE_SIZE := 8192

  function Chunk(slice: bytes): bytes
    requires |slice| < 0x1_0000
  {
    PutU16(|slice|) + slice
  }

  predicate Sliced(slices: seq<bytes>) {
    forall i :: 0 <= i < |slices| ==> |slices[i]| <= SLICE_SIZE
  }

  function EncodeChunks(slices: seq<bytes>): bytes
    requires Sliced(slices)
  {
    if slices == [] then [] else Chunk(slices[0]) + EncodeChunks(slices[1..])
  }

  // ---------------------------------------------------------------------------------------------
  // Reading, on the stream itself
  // ---------------------------------------------------------------------------------------------

  /**
   * What a chunk reader delivers until it reports the end: `left` bytes of the current chunk, then
   * at most `budget` chunks (no bound if negative), up to an empty chunk or the end of the stream.
   */
  function Payload(left: nat, budget: int, s: bytes): bytes
    decreases |s|
  {
    if left > 0 then
      if |s| <= left then s else s[..left] + Payload(0, budget, s[left..])
    else if budget == 0 || |s| < 2 || U16(s[0], s[1]) == 0 then []
    else Payload(U16(s[0], s[1]), budget - 1, s[2..])
  }

  /** Where the stream stands then. */
  function Rest(left: nat, budget: int, s: bytes): bytes
    decreases |s|
  {
    if left > 0 then
      if |s| <= left then [] else Rest(0, budget, s[left..])
    else if budget == 0 then s
    else if |s| < 2 then []
    else if U16(s[0], s[1]) == 0 then s[2..]
    else Rest(U16(s[0], s[1]), budget - 1, s[2..])
  }

  /** Whether reading breaks off inside a chunk header, which is an error and not an end. */
  predicate CutShort(left: nat, budget: int, s: bytes)
    decreases |s|
  {
    if left > 0 then |s| > left && CutShort(0, budget, s[left..])
    else if budget == 0 then false
    else if |s| < 2 then |s| == 1
    else U16(s[0], s[1]) != 0 && CutShort(U16(s[0], s[1]), budget - 1, s[2..])
  }

  /** Taking part of a chunk. */
  lemma PayloadStep(left: nat, budget: int, a: bytes, b: bytes)
    requires 0 < |a| <= left
    ensures Payload(left, budget, a + b) == a + Payload(left - |a|, budget, b)
    ensures Rest(left, budget, a + b) == Rest(left - |a|, budget, b)
    ensures CutShort(left, budget, a + b) == CutShort(left - |a|, budget, b)
  {
    var s, k := a + b, left - |a|;
    if |s| > left {
      assert s[left..] == b[k..];
      assert s[..left] == a + b[..k];
      Assoc(a, b[..k], Payload(0, budget, b[k..]));
      assert k == 0 ==> b[..k] == [] && b[k..] == b;
    } else if k == 0 {
      assert b == [];
    }
  }

  /** Reading a chunk header. */
  lemma PayloadHeader(budget: int, h: bytes, b: bytes)
    requires |h| == 2 && budget != 0
    ensures U16(h[0], h[1]) > 0 ==> Payload(0, budget, h + b) == Payload(U16(h[0], h[1]), budget - 1, b)
    ensures U16(h[0], h[1]) > 0 ==> Rest(0, budget, h + b) == Rest(U16(h[0], h[1]), budget - 1, b)
    ensures U16(h[0], h[1]) > 0 ==> CutShort(0, budget, h + b) == CutShort(U16(h[0], h[1]), budget - 1, b)
    ensures U16(h[0], h[1]) == 0 ==> Payload(0, budget, h + b) == [] && Rest(0, budget, h + b) == b
    ensures U16(h[0], h[1]) == 0 ==> !CutShort(0, budget, h + b)
  {
    assert (h + b)[2..] == b;
  }

  /** The stream s starts with the empty chunk, which means the end. */
  predicate Ending(s: bytes) {
    |s| >= 2 && U16(s[0], s[1]) == 0
  }

  /** Chunks followed by an empty chunk are read back up to and including that chunk. */
  lemma {:induction false} ChunksRoundTrip(budget: int, slices: seq<bytes>, end: bytes)
    requires budget < 0 && Ending(end)
    requires Sliced(slices) && forall i :: 0 <= i < |slices| ==> slices[i] != []
    ensures Payload(0, budget, EncodeChunks(slices) + end) == Flatten(slices)
    ensures Rest(0, budget, EncodeChunks(slices) + end) == end[2..]
    ensures !CutShort(0, budget, EncodeChunks(slices) + end)
    decreases |slices|
  {
    if slices == [] {
      assert EncodeChunks(slices) + end == end;
    } else {
      var x, tail := slices[0], EncodeChunks(slices[1..]) + end;
      Assoc(PutU16(|x|) + x, EncodeChunks(slices[1..]), end);
      Assoc(PutU16(|x|), x, tail);
      PayloadHeader(budget, PutU16(|x|), x + tail);
      PayloadStep(|x|, budget - 1, x, tail);
      ChunksRoundTrip(budget - 1, slices[1..], end);
    }
  }

  // ---------------------------------------------------------------------------------------------
  // The writer
  // ---------------------------------------------------------------------------------------------

  /** Cuts mb into chunks; only an empty write produces the empty chunk that means end of stream. */
  method WriteChunks(mb: MultiBuffer) returns (wire: bytes, ghost slices: seq<bytes>)
    requires Regular(mb)
    ensures Sliced(slices) && wire == EncodeChunks(slices)
    ensures Flatten(slices) == Flatten(mb)
    ensures if Flatten(mb) == [] then slices == [[]] else forall i :: 0 <= i < |slices| ==> slices[i] != []
    ensures forall i :: 0 <= i < |slices| ==> |slices[i]| <= 8192
    ensures |Flatten(mb)| <= 8192 ==> |slices| == 1
    ensures Flatten(mb) == [] ==> |wire| == 2 && Ending(wire)
    ensures Flatten(mb) != [] ==> ReadsBack(wire, Flatten(mb))
  {
    var left := mb;
    wire, slices := [], [];
    while true
      invariant Regular(left)
      invariant Sliced(slices) && wire == EncodeChunks(slices)
      invariant Flatten(slices) + Flatten(left) == Flatten(mb)
      invariant slices != [] ==> Flatten(left) != [] && forall i :: 0 <= i < |slices| ==> slices[i] != []
      invariant (slices == [] && left == mb) || |Flatten(mb)| > 8192
      decreases |Flatten(left)|
    {
      var rest, slice := SplitSize(left, SLICE_SIZE);
      ghost var x := Flatten(slice);
      EncodeSnoc(slices, x);
      FlattenSnoc(slices, x);
      Assoc(Flatten(slices), x, Flatten(rest));
      wire := wire + PutU16(|Flatten(slice)|) + Flatten(slice);
      slices := slices + [x];
      left := rest;
      FlattenEmpty(left);
      if IsEmpty(left) {
        break;
      }
    }
    if Flatten(mb) == [] {
      SingleChunk(slices, |slices[0]|);
    } else {
      AllReadBack(slices);
    }
  }

  /** Followed by an empty chunk, the chunks in wire are read as data. */
  ghost predicate ReadsBack(wire: bytes, data: bytes) {
    forall end :: Ending(end) ==> Payload(0, -1, wire + end) == data && Rest(0, -1, wire + end) == end[2..]
  }

  lemma AllReadBack(slices: seq<bytes>)
    requires Sliced(slices) && forall i :: 0 <= i < |slices| ==> slices[i] != []
    ensures ReadsBack(EncodeChunks(slices), Flatten(slices))
  {
    forall end | Ending(end)
      ensures Payload(0, -1, EncodeChunks(slices) + end) == Flatten(slices)
      ensures Rest(0, -1, EncodeChunks(slices) + end) == end[2..]
    {
      ChunksRoundTrip(-1, slices, end);
    }
  }

  lemma SingleChunk(slices: seq<bytes>, n: nat)
    requires Sliced(slices) && |slices| == 1 && n == |slices[0]|
    ensures var wire := EncodeChunks(slices); |wire| == 2 + n && U16(wire[0], wire[1]) == n
  {
    var h := PutU16(n);
    assert slices[1..] == [];
    assert EncodeChunks(slices) == (h + slices[0]) + [];
  }

  lemma {:induction false} EncodeSnoc(slices: seq<bytes>, x: bytes)
    requires Sliced(slices) && |x| <= SLICE_SIZE
    ensures Sliced(slices + [x])
    ensures EncodeChunks(slices + [x]) == EncodeChunks(slices) + PutU16(|x|) + x
  {
    if slices == [] {
      assert slices + [x] == [x] && [x][1..] == [];
      assert EncodeChunks([x]) == (PutU16(|x|) + x) + [];
    } else {
      var y, rest := slices[0], slices[1..];
      assert (slices + [x])[0] == y && (slices + [x])[1..] == rest + [x];
      EncodeSnoc(rest, x);
      Assoc(Chunk(y), EncodeChunks(rest) + PutU16(|x|), x);
      Assoc(Chunk(y), EncodeChunks(rest), PutU16(|x|));
    }
  }

  // ---------------------------------------------------------------------------------------------
  // The reader and buf.Copy
  // ---------------------------------------------------------------------------------------------

  /** A destination; after `writes` more successful writes it fails (never if negative). */
  class Sink {
    var got: bytes
    var writes: int

    constructor (writes: int)
      ensures got == [] && this.writes == writes
    {
      got, this.writes := [], writes;
    }

    method Write(mb: MultiBuffer) returns (ok: bool)
      modifies this
      ensures ok == (old(writes) != 0)
      ensures got == if ok then old(got) + Flatten(mb) else old(got)
      ensures writes == if ok then old(writes) - 1 else old(writes)
    {
      ok := writes != 0;
      if ok {
        got, writes := got + Flatten(mb), writes - 1;
      }
    }
  }

  datatype CopyResult = Copied | ReadFailed | WriteFailed

  class ChunkStreamReader {
    const reader: BufferedReader
    const maxNumChunk: nat
    var leftOver: nat
    var numChunk: nat

    constructor (reader: BufferedReader, maxNumChunk: nat)
      ensures this.reader == reader && this.maxNumChunk == maxNumChunk
      ensures leftOver == 0 && numChunk == 0
    {
      this.reader, this.maxNumChunk := reader, maxNumChunk;
      leftOver, numChunk := 0, 0;
    }

    /** How many chunks may still be opened; negative if there is no bound. */
    function Budget(): int
      reads this
    {
      if maxNumChunk == 0 then -1 - numChunk else if numChunk >= maxNumChunk then 0 else maxNumChunk - numChunk
    }

    /** What is still to be delivered, and where the stream will stand then. */
    function ToCome(): bytes
      reads this, reader
    {
      Payload(leftOver, Budget(), reader.Remaining())
    }

    function Afterwards(): bytes
      reads this, reader
    {
      Rest(leftOver, Budget(), reader.Remaining())
    }

    /** Whether it will end with an error instead of at an end. */
    predicate WillFail()
      reads this, reader
    {
      CutShort(leftOver, Budget(), reader.Remaining())
    }

    /** Opens the next chunk. */
    method OpenChunk() returns (status: Status)
      requires reader.Valid() && leftOver == 0
      modifies this, reader
      ensures reader.Valid() && |reader.source| <= |old(reader.source)|
      ensures status == Ok ==>
                && leftOver > 0 && ToCome() == old(ToCome()) && Afterwards() == old(Afterwards())
                && WillFail() == old(WillFail())
                && |reader.Remaining()| < |old(reader.Remaining())|
      ensures status != Ok ==> old(ToCome()) == [] && reader.Remaining() == old(Afterwards())
      ensures status != Ok ==> (status == Cut <==> old(WillFail()))
    {
      numChunk := numChunk + 1;
      if maxNumChunk > 0 && numChunk > maxNumChunk {
        return Eof;
      }
      var h;
      h, status := reader.ReadFull(2);
      if status != Ok {
        return;
      }
      PayloadHeader(old(Budget()), h, reader.Remaining());
      leftOver := U16(h[0], h[1]);
      if leftOver == 0 {
        return Eof;
      }
    }

    /** Reads on in the current chunk. */
    method ReadPiece() returns (mb: MultiBuffer, status: Status)
      requires reader.Valid() && leftOver > 0
      modifies this`leftOver, reader
      ensures reader.Valid() && |reader.source| <= |old(reader.source)|
      ensures status == Ok ==>
                && Flatten(mb) + ToCome() == old(ToCome())
                && Afterwards() == old(Afterwards()) && WillFail() == old(WillFail())
      ensures status == Ok ==>
                || |reader.source| < |old(reader.source)|
                || |reader.Remaining()| < |old(reader.Remaining())|
                || (reader.Remaining() == old(reader.Remaining()) && |reader.buffer| < |old(reader.buffer)|)
      ensures status != Ok ==> mb == [] && old(ToCome()) == [] && reader.Remaining() == old(Afterwards())
      ensures status != Ok ==> (status == Cut <==> old(WillFail()))
    {
      mb, status := reader.ReadAtMost(leftOver);
      var n := |Flatten(mb)|;
      if n > 0 {
        PayloadStep(leftOver, Budget(), Flatten(mb), reader.Remaining());
      } else {
        assert [] + reader.Remaining() == reader.Remaining();
        assert [] + ToCome() == ToCome();
      }
      leftOver := leftOver - n;
    }

    /** One piece of the payload, or the end of it. */
    method ReadMultiBuffer() returns (mb: MultiBuffer, status: Status)
      requires reader.Valid()
      modifies this, reader
      ensures reader.Valid() && |reader.source| <= |old(reader.source)|
      ensures status == Ok ==>
                && Flatten(mb) + ToCome() == old(ToCome())
                && Afterwards() == old(Afterwards()) && WillFail() == old(WillFail())
      ensures status == Ok ==>
                || |reader.source| < |old(reader.source)|
                || |reader.Remaining()| < |old(reader.Remaining())|
                || (reader.Remaining() == old(reader.Remaining()) && |reader.buffer| < |old(reader.buffer)|)
      ensures status != Ok ==> mb == [] && old(ToCome()) == [] && reader.Remaining() == old(Afterwards())
      ensures status != Ok ==> (status == Cut <==> old(WillFail()))
    {
      if leftOver == 0 {
        status := OpenChunk();
        if status != Ok {
          return [], status;
        }
      }
      mb, status := ReadPiece();
    }

    /**
     * buf.Copy: everything up to the end goes to the sink. If a write fails, the pieces before it
     * have arrived, and this reader still stands inside the chunk, so copying on from it ends where
     * an undisturbed copy would have ended.
     */
    method Copy(sink: Sink) returns (result: CopyResult)
      requires reader.Valid()
      modifies this, reader, sink
      ensures reader.Valid()
      ensures result == WriteFailed ==>
                exists lost :: lost != [] && old(sink.got) + old(ToCome()) == sink.got + (lost + ToCome())
      ensures result == WriteFailed ==>
                Afterwards() == old(Afterwards()) && WillFail() == old(WillFail()) && old(sink.writes) >= 0
      ensures result != WriteFailed ==>
                && sink.got == old(sink.got) + old(ToCome()) && reader.Remaining() == old(Afterwards())
                && (result == ReadFailed <==> old(WillFail()))
      ensures old(sink.writes) < 0 ==> sink.writes < 0
      ensures old(sink.writes) >= 0 ==> 0 <= sink.writes <= old(sink.writes)
      ensures result != WriteFailed && old(ToCome()) != [] ==> sink.writes < old(sink.writes)
    {
      while true
        invariant reader.Valid()
        invariant sink.got + ToCome() == old(sink.got) + old(ToCome())
        invariant Afterwards() == old(Afterwards()) && WillFail() == old(WillFail())
        invariant old(sink.writes) < 0 ==> sink.writes < 0
        invariant sink.writes <= old(sink.writes) && (old(sink.writes) >= 0 ==> 0 <= sink.writes)
        invariant sink.writes < old(sink.writes) || sink.got == old(sink.got)
        decreases |reader.source|, |reader.Remaining()|, |reader.buffer|
      {
        ghost var got := sink.got;
        var mb, status := ReadMultiBuffer();
        ghost var piece := Flatten(mb);
        Assoc(got, piece, ToCome());
        FlattenEmpty(mb);
        if !IsEmpty(mb) {
          var ok := sink.Write(mb);
          if !ok {
            assert old(sink.got) + old(ToCome()) == sink.got + (piece + ToCome());
            return WriteFailed;
          }
        }
        if status == Eof {
          return Copied;
        }
        if status == Cut {
          return ReadFailed;
        }
      }
    }
  }

  // ---------------------------------------------------------------------------------------------
  // End to end
  // ---------------------------------------------------------------------------------------------

  /** wire holds the nonempty chunks `slices`, which make up data. */
  ghost predicate Chunked(slices: seq<bytes>, data: bytes, wire: bytes) {
    && Sliced(slices) && (forall i :: 0 <= i < |slices| ==> slices[i] != [])
    && Flatten(slices) == data && wire == EncodeChunks(slices)
  }

  lemma {:induction false} EncodeAppend(a: seq<bytes>, b: seq<bytes>)
    requires Sliced(a) && Sliced(b)
    ensures Sliced(a + b) && EncodeChunks(a + b) == EncodeChunks(a) + EncodeChunks(b)
    decreases |a|
  {
    assert forall i :: 0 <= i < |a + b| ==> (a + b)[i] == if i < |a| then a[i] else b[i - |a|];
    if a == [] {
      assert a + b == b;
    } else {
      assert (a + b)[1..] == a[1..] + b;
      EncodeAppend(a[1..], b);
      Assoc(Chunk(a[0]), EncodeChunks(a[1..]), EncodeChunks(b));
    }
  }

  lemma ChunkedAppend(a: seq<bytes>, x: bytes, u: bytes, b: seq<bytes>, y: bytes, v: bytes)
    requires Chunked(a, x, u) && Chunked(b, y, v)
    ensures Chunked(a + b, x + y, u + v)
  {
    EncodeAppend(a, b);
    FlattenAppend(a, b);
    assert forall i :: 0 <= i < |a + b| ==> (a + b)[i] == if i < |a| then a[i] else b[i - |a|];
  }

  /** wire holds what was written in mbs, in nonempty chunks, and then the empty chunk. */
  ghost predicate Carries(mbs: seq<MultiBuffer>, wire: bytes) {
    exists slices: seq<bytes>, chunks: bytes, end: bytes ::
      Chunked(slices, All(mbs), chunks) && |end| == 2 && Ending(end) && wire == chunks + end
  }

  /** Any list of nonempty writes and then the empty one. */
  method WriteAndClose(mbs: seq<MultiBuffer>) returns (wire: bytes)
    requires RegularSource(mbs) && forall i :: 0 <= i < |mbs| ==> Flatten(mbs[i]) != []
    ensures Carries(mbs, wire)
  {
    wire := [];
    ghost var slices: seq<bytes> := [];
    for i := 0 to |mbs|
      invariant Chunked(slices, All(mbs[..i]), wire)
    {
      var more;
      ghost var chunks;
      more, chunks := WriteChunks(mbs[i]);
      ChunkedAppend(slices, All(mbs[..i]), wire, chunks, Flatten(mbs[i]), more);
      AllTake(mbs, i);
      wire, slices := wire + more, slices + chunks;
    }
    assert mbs[..|mbs|] == mbs;
    var end;
    ghost var last;
    end, last := WriteChunks([]);
    assert Chunked(slices, All(mbs), wire);
    wire := wire + end;
  }

  /**
   * End to end, at the other side. The bytes that WriteAndClose sends, with anything behind them,
   * arrive cut into buffers in any way. Copying them ends behind the empty chunk, and the sink has
   * received exactly what was written.
   */
  method Transfer(source: seq<MultiBuffer>, sink: Sink,
                  ghost mbs: seq<MultiBuffer>, ghost wire: bytes, ghost more: bytes)
    returns (reader: BufferedReader, result: CopyResult)
    requires RegularSource(source) && Carries(mbs, wire) && All(source) == wire + more && sink.writes < 0
    modifies sink
    ensures result == Copied && sink.got == old(sink.got) + All(mbs)
    ensures reader.Valid() && reader.Remaining() == more
  {
    reader := new BufferedReader(source);
    var r := new ChunkStreamReader(reader, 0);
    WholeStream(r.leftOver, r.Budget(), mbs, wire, more, reader.Remaining());
    result := r.Copy(sink);
  }

  lemma WholeStream(left: nat, budget: int, mbs: seq<MultiBuffer>, wire: bytes, more: bytes, s: bytes)
    requires left == 0 && budget < 0 && Carries(mbs, wire) && s == wire + more
    ensures Payload(left, budget, s) == All(mbs) && Rest(left, budget, s) == more && !CutShort(left, budget, s)
  {
    var slices: seq<bytes>, chunks: bytes, end: bytes :|
      Chunked(slices, All(mbs), chunks) && |end| == 2 && Ending(end) && wire == chunks + end;
    Assoc(chunks, end, more);
    ChunksRoundTrip(budget, slices, end + more);
    assert (end + more)[2..] == more;
  }
}
