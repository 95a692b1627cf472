/** Bytes and the little-endian reading of byte strings. */
module Bytes {

  type Byte = b: nat | b < 256

  /** One past the largest `u64`. */
  const U64: nat := 0x1_0000_0000_0000_0000

  /** One past the largest 32-byte integer. */
  const U256: nat := 0x1_0000_0000_0000_0000_0000_0000_0000_0000_0000_0000_0000_0000_0000_0000_0000_0000

  function Pow2(n: nat): (p: nat)
    ensures p > 0
  {
    if n == 0 then 1 else 2 * Pow2(n - 1)
  }

  function Pow256(n: nat): (p: nat)
    ensures p > 0
  {
    if n == 0 then 1 else 256 * Pow256(n - 1)
  }

  /** The `n` low bytes of `x`, least significant first (`to_le_bytes`). */
  function LeBytes(x: nat, n: nat): (bs: seq<Byte>)
    ensures |bs| == n
  {
    if n == 0 then [] else [x % 256] + LeBytes(x / 256, n - 1)
  }

  /** The integer a byte string denotes, least significant first (`from_le_bytes`). */
  function LeValue(bs: seq<Byte>): nat {
    if bs == [] then 0 else bs[0] + 256 * LeValue(bs[1..])
  }

  /** The bytes of an ASCII string. */
  function AsciiBytes(s: string): (bs: seq<Byte>)
    ensures |bs| == |s|
    ensures forall i | 0 <= i < |s| && s[i] as int < 256 :: bs[i] == s[i] as int
  {
    seq(|s|, i requires 0 <= i < |s| => s[i] as int % 256)
  }

  /** Byte `i` of an integer is its digit of weight 256^i. */
  lemma {:induction false} LeByteAt(x: nat, n: nat, i: nat)
    requires i < n
    ensures LeBytes(x, n)[i] == (x / Pow256(i)) % 256
  {
    if i > 0 {
      LeByteAt(x / 256, n - 1, i - 1);
      DivideTwice(x, Pow256(i - 1));
    }
  }

  lemma {:induction false} DivideTwice(x: nat, p: nat)
    requires p > 0
    ensures (x / 256) / p == x / (256 * p)
  {
    var a, r := x / 256, x % 256;
    var b, s := a / p, a % p;
    assert a == p * b + s && x == 256 * a + r;
    assert 256 * (p * b) == (256 * p) * b;
    QuotientUnique(x, 256 * p, b, 256 * s + r);
  }

  lemma {:induction false} QuotientUnique(x: nat, d: nat, q: nat, r: nat)
    requires r < d && x == d * q + r
    ensures x / d == q
  {
    var q', r' := x / d, x % d;
    assert d * (q - q') == r' - r;
    if q != q' {
      MultipleTooBig(d, q - q', r' - r);
    }
  }

  lemma {:induction false} MultipleTooBig(d: nat, k: int, y: int)
    requires d > 0 && d * k == y && 0 - d < y < d
    ensures k == 0
  {
  }

  lemma {:induction false} ValueBelow(bs: seq<Byte>)
    ensures LeValue(bs) < Pow256(|bs|)
  {
    if bs != [] {
      ValueBelow(bs[1..]);
    }
  }

  lemma {:induction false} ValueOfBytes(x: nat, n: nat)
    requires x < Pow256(n)
    ensures LeValue(LeBytes(x, n)) == x
  {
    if n != 0 {
      ValueOfBytes(x / 256, n - 1);
      assert LeBytes(x, n)[1..] == LeBytes(x / 256, n - 1);
    }
  }

  lemma {:induction false} BytesOfValue(bs: seq<Byte>)
    ensures LeBytes(LeValue(bs), |bs|) == bs
  {
    if bs != [] {
      BytesOfValue(bs[1..]);
      assert LeValue(bs) % 256 == bs[0] && LeValue(bs) / 256 == LeValue(bs[1..]);
      assert [bs[0]] + bs[1..] == bs;
    }
  }

  lemma {:induction false} ValueOfConcat(a: seq<Byte>, b: seq<Byte>)
    ensures LeValue(a + b) == LeValue(a) + Pow256(|a|) * LeValue(b)
  {
    if a == [] {
      assert a + b == b;
    } else {
      ValueOfConcat(a[1..], b);
      assert (a + b)[1..] == a[1..] + b;
      Distribute(LeValue(a[1..]), Pow256(|a| - 1), LeValue(b));
    }
  }

  lemma {:induction false} Distribute(v: nat, p: nat, w: nat)
    ensures 256 * (v + p * w) == 256 * v + (256 * p) * w
  {
  }

  lemma {:induction false} Pow256Add(a: nat, b: nat)
    ensures Pow256(a + b) == Pow256(a) * Pow256(b)
  {
    if a != 0 {
      Pow256Add(a - 1, b);
      assert (256 * Pow256(a - 1)) * Pow256(b) == 256 * (Pow256(a - 1) * Pow256(b));
    }
  }

  lemma {:induction false} Pow256Constants()
    ensures Pow256(8) == U64
    ensures Pow256(32) == U256
  {
    Pow256Add(1, 1);
    Pow256Add(2, 2);
    assert Pow256(4) == 0x1_0000_0000;
    Pow256Add(4, 4);
    assert Pow256(8) == U64;
    Pow256Add(8, 8);
    assert Pow256(16) == 0x1_0000_0000_0000_0000_0000_0000_0000_0000;
    Pow256Add(16, 16);
  }

  lemma {:induction false} Pow2Of64()
    ensures Pow2(64) == U64
  {
    Pow2Add(32, 32);
    Pow2Of32();
  }

  lemma {:induction false} Pow2Of32()
    ensures Pow2(32) == 0x1_0000_0000
  {
    assert Pow2(4) == 16;
    Pow2Add(4, 4);
    assert Pow2(8) == 256;
    Pow2Add(8, 8);
    assert Pow2(16) == 0x1_0000;
    Pow2Add(16, 16);
  }

  lemma {:induction false} Pow2Add(a: nat, b: nat)
    ensures Pow2(a + b) == Pow2(a) * Pow2(b)
  {
    if a != 0 {
      Pow2Add(a - 1, b);
      assert (2 * Pow2(a - 1)) * Pow2(b) == 2 * (Pow2(a - 1) * Pow2(b));
    }
  }

  /** All bytes zero denotes zero. */
  lemma {:induction false} ValueOfZeros(n: nat)
    ensures LeValue(seq(n, _ => 0)) == 0
  {
    if n != 0 {
      ValueOfZeros(n - 1);
      assert seq(n, _ => 0)[1..] == seq(n - 1, _ => 0);
    }
  }
}
