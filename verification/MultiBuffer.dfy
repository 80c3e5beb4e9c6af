/** Lists of buffers and the reader that hands them out (common/buf). */
module MultiBuffers {
  import opened Bytes

  type MultiBuffer = seq<bytes>

  predicate Regular(mb: MultiBuffer) {
    forall i :: 0 <= i < |mb| ==> |mb[i]| <= BUF_SIZE
  }

  predicate IsEmpty(mb: MultiBuffer) {
    forall i :: 0 <= i < |mb| ==> mb[i] == []
  }

  lemma FlattenSplit(mb: MultiBuffer, i: nat)
    requires i <= |mb|
    ensures Flatten(mb) == Flatten(mb[..i]) + Flatten(mb[i..])
  {
    assert mb == mb[..i] + mb[i..];
    FlattenAppend(mb[..i], mb[i..]);
  }

  lemma FlattenTake(mb: MultiBuffer, i: nat)
    requires i < |mb|
    ensures Flatten(mb[..i + 1]) == Flatten(mb[..i]) + mb[i]
  {
    assert mb[..i + 1] == mb[..i] + [mb[i]];
    FlattenSnoc(mb[..i], mb[i]);
  }

  lemma FlattenFirst(b: bytes, mb: MultiBuffer)
    ensures Flatten([b] + mb) == b + Flatten(mb)
  {
    assert ([b] + mb)[1..] == mb;
  }

  /** Takes up to n bytes off the front, across buffers. */
  method SplitBytes(mb: MultiBuffer, n: nat) returns (rest: MultiBuffer, taken: bytes)
    requires Regular(mb)
    ensures Regular(rest)
    ensures |taken| == Min(n, |Flatten(mb)|)
    ensures taken + Flatten(rest) == Flatten(mb)
  {
    taken := [];
    var i := 0;
    while i < |mb|
      invariant 0 <= i <= |mb|
      invariant taken == Flatten(mb[..i])
      invariant |taken| <= n
    {
      FlattenTake(mb, i);
      FlattenSplit(mb, i + 1);
      var k := Min(n - |taken|, |mb[i]|);
      if k < |mb[i]| {
        ghost var front := Flatten(mb[..i]);
        taken := taken + mb[i][..k];
        rest := [mb[i][k..]] + mb[i + 1..];
        FlattenFirst(mb[i][k..], mb[i + 1..]);
        assert mb[i] == mb[i][..k] + mb[i][k..];
        Assoc(front, mb[i][..k], mb[i][k..]);
        Assoc(taken, mb[i][k..], Flatten(mb[i + 1..]));
        return;
      }
      taken := taken + mb[i];
      i := i + 1;
    }
    rest := [];
    assert mb[..i] == mb;
  }

  /** Where SplitSize stops: the most whole buffers that hold at most size bytes. */
  ghost predicate WholeBuffers(mb: MultiBuffer, size: nat, k: nat) {
    && k <= |mb|
    && |Flatten(mb[..k])| <= size
    && (k < |mb| ==> |Flatten(mb[..k + 1])| > size)
  }

  /**
   * Takes at most size bytes off the front: part of the first buffer if that alone is larger, and
   * otherwise whole buffers only.
   */
  method SplitSize(mb: MultiBuffer, size: nat) returns (rest: MultiBuffer, taken: MultiBuffer)
    requires Regular(mb)
    ensures Regular(rest) && Regular(taken)
    ensures Flatten(taken) + Flatten(rest) == Flatten(mb)
    ensures |Flatten(taken)| <= size
    ensures if mb != [] && |mb[0]| > size
            then taken == [mb[0][..size]] && rest == [mb[0][size..]] + mb[1..]
            else exists k: nat :: WholeBuffers(mb, size, k) && taken == mb[..k] && rest == mb[k..]
    ensures mb != [] && size > 0 ==> |rest| < |mb| || |Flatten(rest)| < |Flatten(mb)|
    ensures size >= BUF_SIZE && Flatten(mb) != [] ==> Flatten(taken) != []
    ensures |Flatten(mb)| <= size ==> rest == []
  {
    if |mb| == 0 {
      assert WholeBuffers(mb, size, 0);
      return [], [];
    }
    if |mb[0]| > size {
      rest, taken := [mb[0][size..]] + mb[1..], [mb[0][..size]];
      FlattenFirst(mb[0][size..], mb[1..]);
      assert Flatten(taken) == mb[0][..size] + Flatten<byte>([]);
      assert mb[0] == mb[0][..size] + mb[0][size..];
      Assoc(mb[0][..size], mb[0][size..], Flatten(mb[1..]));
      return;
    }
    var total := 0;
    taken := [];
    var i := 0;
    while i < |mb|
      invariant 0 <= i <= |mb|
      invariant taken == mb[..i]
      invariant total == |Flatten(mb[..i])| <= size
    {
      FlattenTake(mb, i);
      if total + |mb[i]| > size {
        break;
      }
      total := total + |mb[i]|;
      taken := taken + [mb[i]];
      i := i + 1;
    }
    rest := mb[i..];
    assert WholeBuffers(mb, size, i);
    FlattenSplit(mb, i);
    TakesSomething(mb, size, i);
    if i < |mb| {
      FlattenSplit(mb, i + 1);
    }
  }

  lemma TakesSomething(mb: MultiBuffer, size: nat, k: nat)
    requires Regular(mb) && mb != [] && |mb[0]| <= size && WholeBuffers(mb, size, k)
    ensures k > 0
    ensures size >= BUF_SIZE && Flatten(mb) != [] ==> Flatten(mb[..k]) != []
  {
    assert mb[..1] == [mb[0]];
    assert Flatten([mb[0]]) == mb[0] + Flatten<byte>([]);
    if k < |mb| {
      FlattenTake(mb, k);
    } else {
      assert mb[..k] == mb;
    }
  }

  /** MergeBytes: fills the last buffer and then new ones. */
  method MergeBytes(dest: MultiBuffer, src: bytes) returns (mb: MultiBuffer)
    ensures Flatten(mb) == Flatten(dest) + src
    ensures Regular(dest) ==> Regular(mb)
  {
    mb := dest;
    var left := src;
    if |mb| > 0 && |mb[|mb| - 1]| < BUF_SIZE {
      var last := mb[|mb| - 1];
      var n := Min(BUF_SIZE - |last|, |left|);
      ghost var front := mb[..|mb| - 1];
      assert dest == front + [last];
      FlattenSnoc(front, last);
      FlattenSnoc(front, last + left[..n]);
      Assoc(Flatten(front), last, left[..n]);
      mb := mb[..|mb| - 1] + [last + left[..n]];
      left := left[n..];
      assert src == src[..n] + left;
      Assoc(Flatten(dest), src[..n], left);
    }
    while |left| > 0
      invariant Flatten(mb) + left == Flatten(dest) + src
      invariant Regular(dest) ==> Regular(mb)
      decreases |left|
    {
      var n := Min(BUF_SIZE, |left|);
      FlattenSnoc(mb, left[..n]);
      assert left == left[..n] + left[n..];
      Assoc(Flatten(mb), left[..n], left[n..]);
      mb, left := mb + [left[..n]], left[n..];
    }
    assert Flatten(mb) + [] == Flatten(mb);
  }

  // ---------------------------------------------------------------------------------------------
  // BufferedReader
  // ---------------------------------------------------------------------------------------------

  /** How a read ended: with data, at the end of the stream, or in the middle of what was asked for. */
  datatype Status = Ok | Eof | Cut

  function All(source: seq<MultiBuffer>): bytes {
    if source == [] then [] else Flatten(source[0]) + All(source[1..])
  }

  lemma {:induction false} AllTake(mbs: seq<MultiBuffer>, i: nat)
    requires i < |mbs|
    ensures All(mbs[..i + 1]) == All(mbs[..i]) + Flatten(mbs[i])
  {
    if i == 0 {
      assert mbs[..1][1..] == [] && mbs[..0] == [];
      assert Flatten(mbs[0]) + [] == Flatten(mbs[0]);
    } else {
      AllTake(mbs[1..], i - 1);
      assert mbs[..i + 1][1..] == mbs[1..][..i] && mbs[..i][1..] == mbs[1..][..i - 1];
      Assoc(Flatten(mbs[0]), All(mbs[1..][..i - 1]), Flatten(mbs[i]));
    }
  }

  predicate RegularSource(source: seq<MultiBuffer>) {
    forall i :: 0 <= i < |source| ==> Regular(source[i])
  }

  /** A reader with a cache; `source` is what the reader below will still return, in its own pieces. */
  class BufferedReader {
    var buffer: MultiBuffer
    var source: seq<MultiBuffer>

    constructor (source: seq<MultiBuffer>)
      requires RegularSource(source)
      ensures Valid() && buffer == [] && this.source == source
      ensures Remaining() == All(source)
    {
      buffer, this.source := [], source;
    }

    predicate Valid()
      reads this
    {
      Regular(buffer) && RegularSource(source)
    }

    /** Every byte still to be read. */
    function Remaining(): bytes
      reads this
    {
      Flatten(buffer) + All(source)
    }

    function BufferedBytes(): nat
      reads this
    {
      |Flatten(buffer)|
    }

    /** Up to n bytes, from the cache if it holds any. */
    method Read(n: nat) returns (data: bytes, status: Status)
      requires Valid() && n > 0
      modifies this
      ensures Valid()
      ensures data + Remaining() == old(Remaining()) && |data| <= n
      ensures status == (if old(BufferedBytes() == 0 && source == []) then Eof else Ok)
      ensures old(BufferedBytes()) > 0 ==> |data| == Min(n, old(BufferedBytes())) && source == old(source)
      ensures |source| <= |old(source)|
      ensures old(BufferedBytes()) == 0 && status == Ok ==> |source| < |old(source)|
    {
      FlattenEmpty(buffer);
      if !IsEmpty(buffer) {
        ghost var below := All(source);
        var rest;
        rest, data := SplitBytes(buffer, n);
        Assoc(data, Flatten(rest), below);
        FlattenEmpty(rest);
        buffer := if IsEmpty(rest) then [] else rest;
        return data, Ok;
      }
      if |source| == 0 {
        return [], Eof;
      }
      var mb := source[0];
      ghost var below := All(source[1..]);
      var rest;
      rest, data := SplitBytes(mb, n);
      Assoc(data, Flatten(rest), below);
      FlattenEmpty(rest);
      buffer, source := if IsEmpty(rest) then [] else rest, source[1..];
      status := Ok;
    }

    /** io.ReadFull: exactly n bytes, or everything and an error. */
    method ReadFull(n: nat) returns (data: bytes, status: Status)
      requires Valid()
      modifies this
      ensures Valid()
      ensures data + Remaining() == old(Remaining())
      ensures |data| == Min(n, |old(Remaining())|)
      ensures status == (if |data| == n then Ok else if data == [] then Eof else Cut)
      ensures n <= old(BufferedBytes()) ==> source == old(source)
      ensures |source| <= |old(source)|
    {
      data, status := [], Ok;
      while |data| < n
        invariant Valid() && |source| <= |old(source)|
        invariant |data| <= n && status == Ok
        invariant data + Remaining() == old(Remaining())
        invariant n <= old(BufferedBytes()) ==>
                    source == old(source) && (data == [] ==> BufferedBytes() == old(BufferedBytes()))
                    && (data != [] ==> |data| == n)
        decreases |source|, n - |data|
      {
        var more;
        ghost var before := data;
        more, status := Read(n - |data|);
        Assoc(before, more, Remaining());
        if status != Ok {
          status := if data == [] then Eof else Cut;
          return;
        }
        data := data + more;
      }
    }

    /** A MultiBuffer of at most size bytes, from the cache if it holds any. */
    method ReadAtMost(size: nat) returns (mb: MultiBuffer, status: Status)
      requires Valid() && size > 0
      modifies this
      ensures Valid()
      ensures Flatten(mb) + Remaining() == old(Remaining()) && |Flatten(mb)| <= size
      ensures status == (if old(BufferedBytes() == 0 && source == []) then Eof else Ok)
      ensures status == Eof ==> mb == []
      ensures old(BufferedBytes()) > 0 ==> source == old(source)
      ensures |source| <= |old(source)|
      ensures status == Ok && Flatten(mb) == [] ==>
                |source| < |old(source)| || (source == old(source) && |buffer| < |old(buffer)|)
    {
      FlattenEmpty(buffer);
      if IsEmpty(buffer) {
        if |source| == 0 {
          return [], Eof;
        }
        buffer, source := source[0], source[1..];
      }
      var rest;
      rest, mb := SplitSize(buffer, size);
      Assoc(Flatten(mb), Flatten(rest), All(source));
      FlattenEmpty(rest);
      buffer := if IsEmpty(rest) then [] else rest;
      status := Ok;
    }
  }
}
