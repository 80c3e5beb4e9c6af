/** The increasing nonce of the AEAD authenticators (common/crypto/auth.go). */
module Nonces {
  import opened Bytes

  /** 256^n, the number of nonces of n bytes. */
  function Count(n: nat): (p: nat)
    ensures p > 0
  {
    if n == 0 then 1 else 0x100 * Count(n - 1)
  }

  /** The number a nonce spells, lowest byte first. */
  function Value(s: bytes): nat {
    if s == [] then 0 else s[0] + 0x100 * Value(s[1..])
  }

  /** The nonce that spells v modulo 256^n. */
  ghost predicate Spells(s: bytes, n: nat, v: int) {
    |s| == n && exists q: int :: v == Value(s) + q * Count(n)
  }

  /** One step of the generator: increment with carry, the highest carry is lost. */
  function Succ(s: bytes): (r: bytes)
    ensures |r| == |s|
  {
    if s == [] then []
    else if s[0] == 0xff then [0] + Succ(s[1..])
    else [s[0] + 1] + s[1..]
  }

  class NonceGenerator {
    const c: array<byte>

    /** GenerateIncreasingNonce: a copy of the given start. */
    constructor (nonce: bytes)
      ensures fresh(c) && c[..] == nonce
    {
      c := new byte[|nonce|](i requires 0 <= i < |nonce| => nonce[i]);
    }

    method Next() returns (nonce: bytes)
      modifies c
      ensures nonce == c[..] == Succ(old(c[..]))
    {
      ghost var start := c[..];
      var i := 0;
      while i < c.Length
        invariant 0 <= i <= c.Length
        invariant forall k :: 0 <= k < i ==> start[k] == 0xff && c[k] == 0
        invariant forall k :: i <= k < c.Length ==> c[k] == start[k]
      {
        if c[i] == 0xff {
          c[i] := 0;
        } else {
          c[i] := c[i] + 1;
        }
        if c[i] != 0 {
          CarryStops(start, i);
          assert c[..] == c[..i] + [start[i] + 1] + start[i + 1..];
          assert c[..i] == Zeros(i);
          return c[..];
        }
        i := i + 1;
      }
      AllCarry(start);
      assert c[..] == Zeros(c.Length);
      return c[..];
    }
  }

  lemma {:induction false} CarryStops(s: bytes, i: nat)
    requires i < |s| && s[i] < 0xff && forall k :: 0 <= k < i ==> s[k] == 0xff
    ensures Succ(s) == Zeros(i) + [s[i] + 1] + s[i + 1..]
    decreases i
  {
    if i > 0 {
      CarryStops(s[1..], i - 1);
      assert s[1..][i..] == s[i + 1..];
      assert [0] + Zeros(i - 1) == Zeros(i);
    }
  }

  lemma {:induction false} AllCarry(s: bytes)
    requires forall k :: 0 <= k < |s| ==> s[k] == 0xff
    ensures Succ(s) == Zeros(|s|)
  {
    if s != [] {
      AllCarry(s[1..]);
      assert [0] + Zeros(|s| - 1) == Zeros(|s|);
    }
  }

  /** GenerateAEADNonceWithSize starts from all ones, so the first nonce is all zeros. */
  method FirstAeadNonce(nonceSize: nat) returns (g: NonceGenerator, nonce: bytes)
    ensures fresh(g) && fresh(g.c) && nonce == g.c[..] == Zeros(nonceSize)
  {
    g := new NonceGenerator(seq(nonceSize, _ => 0xff));
    AllCarry(g.c[..]);
    nonce := g.Next();
  }

  // ---------------------------------------------------------------------------------------------
  // Counting
  // ---------------------------------------------------------------------------------------------

  lemma {:induction false} ValueBound(s: bytes)
    ensures Value(s) < Count(|s|)
  {
    if s != [] {
      ValueBound(s[1..]);
    }
  }

  lemma {:induction false} ValueInjective(s: bytes, t: bytes)
    requires |s| == |t| && Value(s) == Value(t)
    ensures s == t
  {
    if s != [] {
      assert s[0] == t[0] && Value(s[1..]) == Value(t[1..]);
      ValueInjective(s[1..], t[1..]);
      assert s == [s[0]] + s[1..] && t == [t[0]] + t[1..];
    }
  }

  /** One step adds one, or wraps around from the last nonce to the first. */
  lemma {:induction false} SuccValue(s: bytes)
    ensures Value(Succ(s)) == if Value(s) + 1 == Count(|s|) then 0 else Value(s) + 1
  {
    if s != [] {
      ValueBound(s[1..]);
      if s[0] == 0xff {
        SuccValue(s[1..]);
        assert Succ(s)[1..] == Succ(s[1..]);
      } else {
        assert Succ(s)[1..] == s[1..];
        assert Value(Succ(s)) == Value(s) + 1;
      }
    }
  }

  /** The k-th nonce after s. */
  function Nth(s: bytes, k: nat): (r: bytes)
    ensures |r| == |s|
  {
    if k == 0 then s else Succ(Nth(s, k - 1))
  }

  /** The k-th output spells the start plus k, modulo 256^n; laps counts the wrap-arounds. */
  lemma {:induction false} NthValue(s: bytes, k: nat) returns (laps: nat)
    ensures Value(Nth(s, k)) + laps * Count(|s|) == Value(s) + k
  {
    if k == 0 {
      laps := 0;
    } else {
      laps := NthValue(s, k - 1);
      SuccValue(Nth(s, k - 1));
      if Value(Nth(s, k - 1)) + 1 == Count(|s|) {
        assert (laps + 1) * Count(|s|) == laps * Count(|s|) + Count(|s|);
        laps := laps + 1;
      }
    }
  }

  lemma NthSpells(s: bytes, k: nat)
    ensures Spells(Nth(s, k), |s|, Value(s) + k)
  {
    var laps := NthValue(s, k);
    assert Value(s) + k == Value(Nth(s, k)) + laps * Count(|s|);
  }

  /** Two outputs are equal exactly when a multiple of 256^n steps lies between them. */
  lemma NoncesRepeat(s: bytes, i: nat, j: nat)
    requires i <= j
    ensures Nth(s, i) == Nth(s, j) <==> exists m: nat :: j - i == m * Count(|s|)
  {
    var p: int, x: int, y: int := Count(|s|), Value(Nth(s, i)), Value(Nth(s, j));
    var a := NthValue(s, i);
    var b := NthValue(s, j);
    ValueBound(Nth(s, i));
    ValueBound(Nth(s, j));
    if x == y {
      ValueInjective(Nth(s, i), Nth(s, j));
      WholeLaps(p, a, b, j - i);
      var m: nat := b - a;
      assert j - i == m * Count(|s|);
    }
    if exists m: nat :: j - i == m * Count(|s|) {
      var m: nat :| j - i == m * Count(|s|);
      SameResidue(p, x, y, a, b, m);
      ValueInjective(Nth(s, i), Nth(s, j));
    }
  }

  lemma WholeLaps(p: int, a: int, b: int, n: int)
    requires p > 0 && n >= 0 && b * p - a * p == n
    ensures b >= a && n == (b - a) * p
  {
    assert (b - a) * p == b * p - a * p;
    Times(b - a, p);
  }

  lemma SameResidue(p: int, x: int, y: int, a: int, b: int, m: int)
    requires 0 <= x < p && 0 <= y < p && y - x + b * p - a * p == m * p
    ensures x == y
  {
    var d := m - b + a;
    assert d * p == m * p - b * p + a * p;
    Times(d, p);
  }

  lemma {:induction false} Times(d: int, p: int)
    requires p > 0
    ensures d > 0 ==> d * p >= p
    ensures d == 0 ==> d * p == 0
    ensures d < 0 ==> d * p <= 0 - p
    decreases if d > 0 then d else -d
  {
    if d > 1 {
      Times(d - 1, p);
      assert d * p == (d - 1) * p + p;
    } else if d < -1 {
      Times(d + 1, p);
      assert d * p == (d + 1) * p - p;
    }
  }

  /** Any 256^n consecutive nonces are pairwise distinct. */
  lemma NoncesDistinct(s: bytes, i: nat, j: nat)
    requires i < j < i + Count(|s|)
    ensures Nth(s, i) != Nth(s, j)
  {
    NoncesRepeat(s, i, j);
    forall m: nat ensures j - i != m * Count(|s|) {
      Times(m, Count(|s|));
    }
  }
}
