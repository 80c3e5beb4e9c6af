/** Bytes, big-endian 16-bit values and concatenation, shared by every codec. */
module Bytes {

  type byte = x: int | 0 <= x < 0x100
  type u16 = x: int | 0 <= x < 0x1_0000
  type bytes = seq<byte>

  /** buf.Size: the capacity of a pooled buffer. */
  const BUF_SIZE: nat := 8192

  datatype Option<+T> = None | Some(value: T)

  function Min(a: int, b: int): int {
    if a <= b then a else b
  }

  function Max(a: int, b: int): int {
    if a <= b then b else a
  }

  function U16(hi: byte, lo: byte): u16 {
    hi * 0x100 + lo
  }

  /** Big-endian encoding (binary.BigEndian.PutUint16). */
  function PutU16(x: u16): (r: bytes)
    ensures |r| == 2 && U16(r[0], r[1]) == x
  {
    [x / 0x100, x % 0x100]
  }

  /** What a buffer of capacity BUF_SIZE holds after s is written into it while empty. */
  function Clip(s: bytes): bytes {
    if |s| <= BUF_SIZE then s else s[..BUF_SIZE]
  }

  function Zeros(n: nat): bytes {
    seq(n, _ => 0)
  }

  function Flatten<T>(ss: seq<seq<T>>): seq<T> {
    if ss == [] then [] else ss[0] + Flatten(ss[1..])
  }

  lemma Assoc<T>(a: seq<T>, b: seq<T>, c: seq<T>)
    ensures (a + b) + c == a + (b + c)
  {
  }

  lemma SplitEqual<T>(a: seq<T>, b: seq<T>, c: seq<T>, d: seq<T>)
    requires a + b == c + d && |a| == |c|
    ensures a == c && b == d
  {
    assert a == (a + b)[..|a|] && b == (a + b)[|a|..];
    assert c == (c + d)[..|c|] && d == (c + d)[|c|..];
  }

  lemma {:induction false} FlattenAppend<T>(a: seq<seq<T>>, b: seq<seq<T>>)
    ensures Flatten(a + b) == Flatten(a) + Flatten(b)
  {
    if a == [] {
      assert a + b == b;
    } else {
      assert (a + b)[0] == a[0] && (a + b)[1..] == a[1..] + b;
      FlattenAppend(a[1..], b);
      Assoc(a[0], Flatten(a[1..]), Flatten(b));
    }
  }

  lemma FlattenSnoc<T>(a: seq<seq<T>>, x: seq<T>)
    ensures Flatten(a + [x]) == Flatten(a) + x
  {
    FlattenAppend(a, [x]);
    assert Flatten([x]) == x + Flatten([x][1..]) == x;
  }

  lemma {:induction false} FlattenEmpty<T>(a: seq<seq<T>>)
    ensures Flatten(a) == [] <==> forall i :: 0 <= i < |a| ==> a[i] == []
  {
    if a != [] {
      FlattenEmpty(a[1..]);
      if Flatten(a) == [] {
        forall i | 0 <= i < |a| ensures a[i] == [] {
          if i > 0 { assert a[1..][i - 1] == a[i]; }
        }
      }
    }
  }

  lemma ClipConcat(a: bytes, b: bytes)
    ensures Clip(Clip(a) + b) == Clip(a + b)
  {
    if |a| > BUF_SIZE {
      assert (a + b)[..BUF_SIZE] == a[..BUF_SIZE] == (Clip(a) + b)[..BUF_SIZE];
    }
  }
}
