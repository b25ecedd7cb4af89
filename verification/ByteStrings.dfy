/** Bytes as numbers below 256, with exclusive or and big-endian integers. */
module ByteStrings {

  type byte = x: int | 0 <= x < 256

  type Bytes = seq<byte>

  lemma TakeAll(b: Bytes)
    ensures b[..|b|] == b && b[0..] == b
  {
  }

  lemma SliceOfSum(a: Bytes, b: Bytes, i: nat, j: nat)
    requires i <= j <= |a|
    ensures (a + b)[i..j] == a[i..j] && (a + b)[|a|..] == b && (a + b)[|a|..|a| + |b|] == b
  {
  }

  lemma TakeOfTake(b: Bytes, n: nat, k: nat)
    requires k <= n <= |b|
    ensures b[..n][..k] == b[..k]
  {
  }

  lemma TakeInTwo(b: Bytes, i: nat, j: nat)
    requires i <= j <= |b|
    ensures b[..i] + b[i..][..j - i] == b[..j]
  {
  }

  function Pow2(n: nat): (r: nat) {
    if n == 0 then 1 else 2 * Pow2(n - 1)
  }

  /** Exclusive or of the n low bits. */
  function XorBits(a: nat, b: nat, n: nat): (r: nat)
    ensures r < Pow2(n)
  {
    if n == 0 then 0 else 2 * XorBits(a / 2, b / 2, n - 1) + (if a % 2 == b % 2 then 0 else 1)
  }

  function Xor8(a: byte, b: byte): (r: byte) {
    assert Pow2(8) == 256;
    XorBits(a, b, 8)
  }

  lemma TimesMonotone(p: nat, a: nat, b: nat)
    requires a <= b
    ensures p * a <= p * b
  {
  }

  lemma BelowMultiple(p: nat, a: nat, b: nat)
    requires p * a < p * (b + 1)
    ensures a <= b
  {
    if b + 1 <= a {
      TimesMonotone(p, b + 1, a);
    }
  }

  lemma QuotientOf(p: nat, q: nat, r: nat)
    requires r < p
    ensures (p * q + r) / p == q && (p * q + r) % p == r
  {
    var x := p * q + r;
    var k := x / p;
    assert x == p * k + x % p && p * (k + 1) == p * k + p && p * (q + 1) == p * q + p;
    BelowMultiple(p, k, q);
    BelowMultiple(p, q, k);
  }

  lemma Division(a: nat, p: nat)
    requires p > 0
    ensures a == p * (a / p) + a % p && a % p < p
  {
  }

  lemma Regroup(t: nat, u: nat, m: nat, p: nat, q: nat, r2: nat, r1: nat)
    requires t == m * u + r1 && u == p * q + r2
    ensures t == m * p * q + (m * r2 + r1)
  {
    assert m * (p * q + r2) == m * p * q + m * r2;
  }

  lemma RemainderBound(m: nat, p: nat, r2: nat, r1: nat)
    requires r2 < p && r1 < m
    ensures m * r2 + r1 < m * p
  {
    TimesMonotone(m, r2 + 1, p);
    assert m * (r2 + 1) == m * r2 + m;
  }

  lemma QuotientIs(t: nat, d: nat, q: nat, r: nat)
    requires t == d * q + r && r < d
    ensures t / d == q
  {
    QuotientOf(d, q, r);
  }

  /** Dividing twice is dividing by the product. */
  lemma DivideTwice(t: nat, m: nat, p: nat)
    requires m > 0 && p > 0
    ensures m * p > 0 && t / m / p == t / (m * p)
  {
    var u, r1 := t / m, t % m;
    var q, r2 := u / p, u % p;
    Division(t, m);
    Division(u, p);
    RemainderBound(m, p, r2, r1);
    Regroup(t, u, m, p, q, r2, r1);
    QuotientIs(t, m * p, q, m * r2 + r1);
  }

  lemma XorBitsHalves(a: nat, b: nat, n: nat)
    requires n > 0
    ensures XorBits(a, b, n) / 2 == XorBits(a / 2, b / 2, n - 1)
    ensures XorBits(a, b, n) % 2 == if a % 2 == b % 2 then 0 else 1
  {
  }

  ghost predicate DiffersAt(x: nat, a: nat, b: nat, p: nat)
    requires p > 0
  {
    x / p % 2 == 1 <==> a / p % 2 != b / p % 2
  }

  lemma DiffersAtDouble(x: nat, a: nat, b: nat, p: nat)
    requires p > 0 && DiffersAt(x / 2, a / 2, b / 2, p)
    ensures DiffersAt(x, a, b, 2 * p)
  {
    DivideTwice(a, 2, p);
    DivideTwice(b, 2, p);
    DivideTwice(x, 2, p);
  }

  lemma {:induction false} XorBitsAt(a: nat, b: nat, n: nat, i: nat)
    requires i < n
    ensures Pow2(i) > 0 && DiffersAt(XorBits(a, b, n), a, b, Pow2(i))
  {
    XorBitsHalves(a, b, n);
    if i > 0 {
      XorBitsAt(a / 2, b / 2, n - 1, i - 1);
      DiffersAtDouble(XorBits(a, b, n), a, b, Pow2(i - 1));
    }
  }

  /** Bit by bit, the result is set where exactly one of the two is. */
  lemma Xor8Bit(a: byte, b: byte, i: nat)
    requires i < 8
    ensures Pow2(i) > 0
    ensures Xor8(a, b) / Pow2(i) % 2 == 1 <==> a / Pow2(i) % 2 != b / Pow2(i) % 2
  {
    XorBitsAt(a, b, 8, i);
  }

  lemma {:induction false} XorBitsTwice(a: nat, b: nat, n: nat)
    requires a < Pow2(n)
    ensures XorBits(XorBits(a, b, n), b, n) == a
  {
    if n > 0 {
      XorBitsTwice(a / 2, b / 2, n - 1);
      var x := XorBits(a, b, n);
      assert x / 2 == XorBits(a / 2, b / 2, n - 1) && x % 2 == if a % 2 == b % 2 then 0 else 1;
    }
  }

  lemma {:induction false} XorBitsZero(a: nat, n: nat)
    requires a < Pow2(n)
    ensures XorBits(a, 0, n) == a
  {
    if n > 0 {
      XorBitsZero(a / 2, n - 1);
    }
  }

  lemma Xor8Twice(a: byte, b: byte)
    ensures Xor8(Xor8(a, b), b) == a
  {
    assert Pow2(8) == 256;
    XorBitsTwice(a, b, 8);
  }

  lemma Xor8Zero(a: byte)
    ensures Xor8(a, 0) == a
  {
    assert Pow2(8) == 256;
    XorBitsZero(a, 8);
  }

  /** The last n bytes of `t`, most significant first. */
  function BigEndian(t: nat, n: nat): (r: Bytes)
    ensures |r| == n
  {
    if n == 0 then [] else BigEndian(t / 256, n - 1) + [t % 256]
  }

  function Number(b: Bytes): (t: nat) {
    if b == [] then 0 else 256 * Number(b[..|b| - 1]) + b[|b| - 1]
  }

  function Pow256(n: nat): (r: nat) {
    if n == 0 then 1 else 256 * Pow256(n - 1)
  }

  lemma {:induction false} PowPositive(n: nat)
    ensures Pow256(n) > 0
  {
    if n > 0 {
      PowPositive(n - 1);
    }
  }

  /** Byte i of n, counted from the front, is the digit of 256^(n - 1 - i). */
  lemma {:induction false} BigEndianAt(t: nat, n: nat, i: nat)
    requires i < n
    ensures Pow256(n - 1 - i) > 0 && BigEndian(t, n)[i] == t / Pow256(n - 1 - i) % 256
  {
    PowPositive(n - 1 - i);
    if i < n - 1 {
      BigEndianAt(t / 256, n - 1, i);
      PowPositive(n - 2 - i);
      DivideTwice(t, 256, Pow256(n - 2 - i));
    }
  }

  lemma FourBytes(n: nat)
    requires n < 0x1_0000_0000
    ensures BigEndian(n, 4) == [n / 0x100_0000, n / 0x1_0000 % 256, n / 0x100 % 256, n % 256]
  {
    var n1 := n / 256;
    var n2 := n1 / 256;
    var n3 := n2 / 256;
    assert BigEndian(n3, 1) == [n3 % 256];
    assert BigEndian(n2, 2) == BigEndian(n3, 1) + [n2 % 256];
    assert BigEndian(n1, 3) == BigEndian(n2, 2) + [n1 % 256];
    assert n2 == n / 0x1_0000 && n3 == n / 0x100_0000;
  }

  lemma {:induction false} NumberOfBigEndian(t: nat, n: nat)
    requires t < Pow256(n)
    ensures Number(BigEndian(t, n)) == t
  {
    if n > 0 {
      NumberOfBigEndian(t / 256, n - 1);
      assert BigEndian(t, n)[..n - 1] == BigEndian(t / 256, n - 1);
    }
  }

  lemma {:induction false} BigEndianOfNumber(b: Bytes)
    ensures BigEndian(Number(b), |b|) == b && Number(b) < Pow256(|b|)
  {
    if b != [] {
      var n := |b| - 1;
      BigEndianOfNumber(b[..n]);
      assert Number(b) / 256 == Number(b[..n]) && Number(b) % 256 == b[n];
      assert b == b[..n] + [b[n]];
    }
  }

  lemma PasteMore(d: Bytes, d': Bytes, at: nat, src: Bytes, i: nat)
    requires i < |src| && at + i < |d| && d' == d[..at] + src[..i] + d[at + i..]
    ensures d'[at + i := src[i]] == d[..at] + src[..i + 1] + d[at + i + 1..]
  {
  }

  /** `copy(dst[at:], src)`: as much of `src` as fits. */
  method Copy(dst: array<byte>, at: nat, src: Bytes)
    requires at <= dst.Length
    modifies dst
    ensures var n := if |src| < dst.Length - at then |src| else dst.Length - at;
            dst[..] == old(dst[..at]) + src[..n] + old(dst[at + n..])
  {
    var n := if |src| < dst.Length - at then |src| else dst.Length - at;
    var i := 0;
    while i < n
      invariant i <= n
      invariant dst[..] == old(dst[..at]) + src[..i] + old(dst[at + i..])
    {
      PasteMore(old(dst[..]), dst[..], at, src, i);
      dst[at + i] := src[i];
      i := i + 1;
    }
  }
}
