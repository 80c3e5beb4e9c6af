/** The pooled byte buffer: a window [start, end) over a fixed array. */
module Buffers {
  import opened Bytes

  lemma SliceBehind(a: bytes, b: bytes, n: nat, f: nat, t: nat)
    requires n <= |a| && f <= t && n + t <= |a + b|
    ensures (a[n..] + b)[f..t] == (a + b)[n + f..n + t]
  {
    assert a[n..] + b == (a + b)[n..];
  }

  class Buffer {
    const v: array<byte>
    var start: nat
    var end: nat

    ghost predicate Valid()
      reads this
    {
      start <= end <= v.Length
    }

    ghost function Contents(): bytes
      requires Valid()
      reads this, v
    {
      v[start..end]
    }

    /** A buffer of the regular size, empty. */
    constructor ()
      ensures Valid() && fresh(v)
      ensures v.Length == BUF_SIZE && start == 0 && end == 0
      ensures Contents() == []
    {
      v := new byte[BUF_SIZE];
      start, end := 0, 0;
    }

    /** Appends as much of data as fits and reports how much that was. */
    method Write(data: bytes) returns (n: nat)
      requires Valid()
      modifies this`end, v
      ensures Valid() && end == old(end) + n
      ensures n == Min(|data|, v.Length - old(end))
      ensures Contents() == old(Contents()) + data[..n]
    {
      n := Min(|data|, v.Length - end);
      forall i | 0 <= i < n {
        v[end + i] := data[i];
      }
      end := end + n;
      assert v[start..end] == v[start..old(end)] + v[old(end)..end];
    }

    /** Appends data that is known to fit. */
    method WriteAll(data: bytes)
      requires Valid() && end + |data| <= v.Length
      modifies this`end, v
      ensures Valid() && end == old(end) + |data|
      ensures Contents() == old(Contents()) + data
    {
      var n := Write(data);
      assert data[..n] == data;
    }

    /** Grows the window by n zero bytes; beyond the capacity the source panics. */
    method Extend(n: nat)
      requires Valid() && end + n <= v.Length
      modifies this`end, v
      ensures Valid() && end == old(end) + n
      ensures Contents() == old(Contents()) + Zeros(n)
    {
      forall i | 0 <= i < n {
        v[end + i] := 0;
      }
      end := end + n;
      assert v[start..end] == v[start..old(end)] + v[old(end)..end];
    }

    /** Overwrites bytes that an earlier Extend reserved at position `at` of the array. */
    method Patch(at: nat, data: bytes)
      requires Valid() && start <= at && at + |data| <= end
      modifies v
      ensures Contents() == old(Contents())[..at - start] + data + old(Contents())[at + |data| - start..]
    {
      forall i | 0 <= i < |data| {
        v[at + i] := data[i];
      }
      assert v[start..end] == v[start..at] + v[at..at + |data|] + v[at + |data|..end];
    }

    /** A position in the content; a negative one counts from the end. */
    function Position(p: int): int
      requires Valid()
      reads this
    {
      if p < 0 then p + (end - start) else p
    }

    /**
     * Cuts the window to [from, to) of its content. A window that grows takes zero bytes in behind
     * and, if from lies before the content, bytes of the array in front. Fails where the source
     * panics: on a range turned round and on a window beyond the array.
     */
    method Resize(from: int, to: int) returns (ok: bool)
      requires Valid()
      modifies this`start, this`end, v
      ensures Valid()
      ensures ok <==> old(Position(from)) <= old(Position(to)) <= v.Length - old(start)
      ensures !ok ==> start == old(start) && end == old(end) && v[..] == old(v[..])
      ensures ok ==> start == Max(0, old(start + Position(from))) && end == Max(0, old(start + Position(to)))
      ensures ok ==> Contents() == (old(v[..end]) + Zeros(Max(0, end - old(end))))[start..end]
      ensures ok && old(Position(from)) >= 0 ==>
                Contents() == (old(Contents()) + Zeros(Max(0, end - old(end))))[old(Position(from))..old(Position(to))]
    {
      var oldEnd := end;
      var f, t := Position(from), Position(to);
      if t < f || start + t > v.Length {
        return false;
      }
      start, end := Max(0, start + f), Max(0, start + t);
      forall i | oldEnd <= i < end {
        v[i] := 0;
      }
      ghost var grown := Zeros(Max(0, end - oldEnd));
      ghost var all := old(v[..end]) + grown;
      assert |grown| == Max(0, end - oldEnd) && |all| == oldEnd + |grown|;
      forall i | start <= i < end ensures v[i] == all[i] {
        if i < oldEnd {
          assert all[i] == old(v[i]);
        } else {
          assert all[i] == grown[i - oldEnd];
        }
      }
      assert v[start..end] == all[start..end];
      if f >= 0 {
        assert old(v[..end])[old(start)..] == old(v[start..end]);
        SliceBehind(old(v[..end]), grown, old(start), f, t);
      }
      ok := true;
    }

    /** Drops the first bytes of the content up to from, all of it when there are fewer. */
    method Advance(from: int)
      requires Valid()
      modifies this`start
      ensures Valid() && start == Max(0, Min(old(start + Position(from)), end))
      ensures old(Position(from)) >= 0 ==>
                Contents() == old(Contents())[Min(old(Position(from)), |old(Contents())|)..]
    {
      start := Max(0, Min(start + Position(from), end));
    }

    /** Moves up to n bytes out of the window; an emptied window goes back to the array's start. */
    method Read(n: nat) returns (data: bytes)
      requires Valid()
      modifies this`start, this`end
      ensures Valid()
      ensures |data| == Min(n, |old(Contents())|)
      ensures data + Contents() == old(Contents())
      ensures Contents() == [] ==> |old(Contents())| == 0 || (start == 0 && end == 0)
    {
      if start == end {
        return [];
      }
      var k := Min(n, end - start);
      data := v[start..start + k];
      if k == end - start {
        start, end := 0, 0;
      } else {
        start := start + k;
      }
    }
  }
}
